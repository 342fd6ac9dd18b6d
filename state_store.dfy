/**
 * The controller's state file: a JSON object from ticket numbers written as
 * text to managed-ticket records. Saving writes every entry under `str` of
 * its ticket; loading reads the names back with `int`. An absent file, text
 * that is not JSON or a name that is not an integer gives an empty state;
 * JSON that is not an object, or a file that cannot be opened, raises out
 * of the load.
 */
module StateStore {
  import opened Wrappers
  import opened Text
  import opened Dicts
  import opened Reconcile

  /**
   * What is on disk: nothing, a file that cannot be opened or read, a file
   * that is not valid JSON, valid JSON that is not an object, or an object
   * whose members are given in order, each name once (as `json.load`
   * leaves them).
   */
  datatype StateFile =
    | Missing
    | Unreadable
    | Malformed
    | NotAnObject
    | Document(members: seq<(string, ManagedTicket)>)

  /** Whether every member's name reads as an integer. */
  predicate NamesAreIntegers<V>(members: seq<(string, V)>) {
    forall i :: 0 <= i < |members| ==> ParseInt(members[i].0).Some?
  }

  /** The members with their names read as integers, in order. */
  function ParsedMembers<V>(members: seq<(string, V)>): (r: seq<(int, V)>)
    requires NamesAreIntegers(members)
    ensures |r| == |members|
    ensures forall i :: 0 <= i < |members| ==> r[i] == (ParseInt(members[i].0).value, members[i].1)
  {
    seq(|members|, i requires 0 <= i < |members| => (ParseInt(members[i].0).value, members[i].1))
  }

  /**
   * `_load_state`: the loaded map, or None for the exceptions it does not
   * catch, the `OSError` of a file it cannot open and the `AttributeError`
   * of `.items()` on JSON that is not an object.
   */
  function LoadState(file: StateFile): Option<map<int, ManagedTicket>> {
    match file
    case Missing => Some(map[])
    case Unreadable => None
    case Malformed => Some(map[])
    case NotAnObject => None
    case Document(members) =>
      Some(if NamesAreIntegers(members) then BuildMap(ParsedMembers(members)) else map[])
  }

  /**
   * Loading raises exactly for a file it cannot open and for JSON that is
   * not an object; an absent file or text that is not JSON gives an empty
   * state.
   */
  lemma LoadOutcomes(file: StateFile)
    ensures LoadState(file).None? <==> file.Unreadable? || file.NotAnObject?
    ensures file.Missing? || file.Malformed? ==> LoadState(file) == Some(map[])
  {
  }

  /** Whether `member` is the entry of ticket `k` of `pd`, under the ticket as text. */
  ghost predicate WrittenEntry<V>(pd: map<int, V>, member: (string, V), k: int) {
    k in pd && member == (IntToString(k), pd[k])
  }

  /** Whether `members` is a serialisation of `pd`: each entry exactly once, under its ticket as text, in any order. */
  ghost predicate IsSerialisation<V>(pd: map<int, V>, members: seq<(string, V)>) {
    && (forall i, j :: 0 <= i < j < |members| ==> members[i].0 != members[j].0)
    && (forall m | m in members :: exists k :: WrittenEntry(pd, m, k))
    && (forall k | k in pd :: exists i :: 0 <= i < |members| && WrittenEntry(pd, members[i], k))
  }

  lemma MemberTicket<V>(pd: map<int, V>, members: seq<(string, V)>, i: nat) returns (k: int)
    requires IsSerialisation(pd, members) && i < |members|
    ensures k in pd && members[i] == (IntToString(k), pd[k])
  {
    assert members[i] in members;
    k :| WrittenEntry(pd, members[i], k);
  }

  lemma TicketWritten<V>(pd: map<int, V>, members: seq<(string, V)>, k: int) returns (i: nat)
    requires IsSerialisation(pd, members) && k in pd
    ensures i < |members| && WrittenEntry(pd, members[i], k)
  {
    i :| 0 <= i < |members| && WrittenEntry(pd, members[i], k);
  }

  /** Every name of a serialisation reads as an integer. */
  lemma SerialisedNamesParse<V>(pd: map<int, V>, members: seq<(string, V)>)
    requires IsSerialisation(pd, members)
    ensures NamesAreIntegers(members)
  {
    forall i | 0 <= i < |members| ensures ParseInt(members[i].0).Some? {
      var k := MemberTicket(pd, members, i);
      ParseIntOfIntToString(k);
    }
  }

  /** Every name of a serialisation reads back as the ticket whose entry it holds. */
  lemma SerialisedPairsAgree<V>(pd: map<int, V>, members: seq<(string, V)>)
    requires IsSerialisation(pd, members) && NamesAreIntegers(members)
    ensures forall i :: 0 <= i < |ParsedMembers(members)| ==>
      ParsedMembers(members)[i].0 in pd && ParsedMembers(members)[i].1 == pd[ParsedMembers(members)[i].0]
  {
    forall i | 0 <= i < |ParsedMembers(members)|
      ensures ParsedMembers(members)[i].0 in pd && ParsedMembers(members)[i].1 == pd[ParsedMembers(members)[i].0]
    {
      var k := MemberTicket(pd, members, i);
      ParseIntOfIntToString(k);
    }
  }

  /** Reading the names of a serialisation back and inserting the entries in order rebuilds the map. */
  lemma ReadBackSerialisation<V>(pd: map<int, V>, members: seq<(string, V)>)
    requires IsSerialisation(pd, members)
    ensures NamesAreIntegers(members) && BuildMap(ParsedMembers(members)) == pd
  {
    SerialisedNamesParse(pd, members);
    EveryTicketNamed(pd, members);
    SerialisedPairsAgree(pd, members);
    var pairs := ParsedMembers(members);
    assert forall k | k in pd :: exists i :: 0 <= i < |pairs| && pairs[i].0 == k;
    BuildMapOfGraph(pairs, pd);
  }

  lemma EveryTicketNamed<V>(pd: map<int, V>, members: seq<(string, V)>)
    requires IsSerialisation(pd, members) && NamesAreIntegers(members)
    ensures forall k | k in pd :: exists i :: 0 <= i < |ParsedMembers(members)| && ParsedMembers(members)[i].0 == k
  {
    forall k | k in pd ensures exists i :: 0 <= i < |ParsedMembers(members)| && ParsedMembers(members)[i].0 == k {
      var i := TicketWritten(pd, members, k);
      ParseIntOfIntToString(k);
      assert ParsedMembers(members)[i].0 == k;
    }
  }

  /** Whatever order the entries were written in, loading the saved file gives back the saved map. */
  lemma LoadAfterSave(pd: map<int, ManagedTicket>, members: seq<(string, ManagedTicket)>)
    requires IsSerialisation(pd, members)
    ensures LoadState(Document(members)) == Some(pd)
  {
    ReadBackSerialisation(pd, members);
  }

  /** A name that is not an integer discards the whole file. */
  lemma BadNameDiscardsAll(members: seq<(string, ManagedTicket)>, i: nat)
    requires i < |members| && ParseInt(members[i].0).None?
    ensures LoadState(Document(members)) == Some(map[])
  {
  }
}
