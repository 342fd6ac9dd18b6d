/**
 * The CSV export of the extracted signals: the header row is the sorted set
 * of every key a stored signal has and every take-profit key, without the
 * nested `take_profits` itself, so that every flattened row fits it.
 */
module SignalExport {
  import opened Wrappers
  import opened SignalExtractor

  /** The keys the parser puts in every signal dictionary, and the four the extraction loop adds. */
  const FixedKeys: set<string> := {
    "symbol", "direction", "raw_message", "entry_type", "entry_points", "take_profits",
    "timestamp", "message_id", "channel_id", "message_age_hours"
  }

  /** The keys of a stored signal dictionary. */
  function StoredKeys(sig: Signal): set<string> {
    FixedKeys
    + (if sig.direction2.Some? then {"direction2"} else {})
    + (if sig.stopLoss.Some? then {"stop_loss"} else {})
  }

  /** The keys of a signal's CSV row: its take-profits copied in, then `take_profits` deleted. */
  function RowKeys(sig: Signal): set<string> {
    (StoredKeys(sig) + sig.takeProfits.Keys) - {"take_profits"}
  }

  /** The keys the header loop collects from the signals, before `take_profits` is removed. */
  function CollectedKeys(signals: seq<Signal>): set<string> {
    if signals == [] then {}
    else CollectedKeys(signals[..|signals| - 1]) + StoredKeys(signals[|signals| - 1]) + signals[|signals| - 1].takeProfits.Keys
  }

  /** The column names: the collected keys without `take_profits`. */
  function HeaderNames(signals: seq<Signal>): set<string> {
    CollectedKeys(signals) - {"take_profits"}
  }

  // ---------------------------------------------------------------------
  // The order `sorted` puts strings in

  /** `a < b` on Python strings: code point by code point, a proper prefix first. */
  predicate Below(a: string, b: string) {
    if a == [] then b != []
    else if b == [] then false
    else if a[0] != b[0] then a[0] < b[0]
    else Below(a[1..], b[1..])
  }

  lemma {:induction false} BelowIrreflexive(a: string)
    ensures !Below(a, a)
  {
    if a != [] {
      BelowIrreflexive(a[1..]);
    }
  }

  lemma {:induction false} BelowTransitive(a: string, b: string, c: string)
    requires Below(a, b) && Below(b, c)
    ensures Below(a, c)
  {
    if a != [] && b != [] && c != [] && a[0] == b[0] == c[0] {
      BelowTransitive(a[1..], b[1..], c[1..]);
    }
  }

  lemma {:induction false} BelowTotal(a: string, b: string)
    requires a != b
    ensures Below(a, b) || Below(b, a)
  {
    if a != [] && b != [] && a[0] == b[0] {
      assert a == [a[0]] + a[1..] && b == [b[0]] + b[1..];
      BelowTotal(a[1..], b[1..]);
    }
  }

  lemma BelowAsymmetric(a: string, b: string)
    requires Below(a, b)
    ensures !Below(b, a)
  {
    if Below(b, a) {
      BelowTransitive(a, b, a);
      BelowIrreflexive(a);
    }
  }

  predicate StrictlySorted(s: seq<string>) {
    forall i, j :: 0 <= i < j < |s| ==> Below(s[i], s[j])
  }

  /** A non-empty finite set of strings has a least element. */
  lemma {:induction false} LeastExists(names: set<string>)
    requires names != {}
    ensures exists x :: x in names && forall y :: y in names && y != x ==> Below(x, y)
  {
    var x :| x in names;
    var rest := names - {x};
    if rest == {} {
      assert names == {x};
    } else {
      LeastExists(rest);
      var m :| m in rest && forall y :: y in rest && y != m ==> Below(m, y);
      if Below(x, m) {
        forall y | y in names && y != x ensures Below(x, y) {
          if y != m {
            BelowTransitive(x, m, y);
          }
        }
      } else {
        BelowTotal(x, m);
        assert forall y :: y in names && y != m ==> Below(m, y);
      }
    }
  }

  /** Two strictly sorted lists with the same elements are the same list. */
  lemma {:induction false} SortedUnique(a: seq<string>, b: seq<string>)
    requires StrictlySorted(a) && StrictlySorted(b)
    requires forall x :: x in a <==> x in b
    ensures a == b
  {
    EmptyTogether(a, b);
    if a != [] {
      assert a[0] in a && b[0] in b;
      if a[0] != b[0] {
        var i :| 0 <= i < |b| && b[i] == a[0];
        var j :| 0 <= j < |a| && a[j] == b[0];
        BelowAsymmetric(a[0], b[0]);
        assert false;
      }
      forall x ensures x in a[1..] <==> x in b[1..] {
        SortedTail(a, x);
        SortedTail(b, x);
      }
      SortedUnique(a[1..], b[1..]);
      assert a == [a[0]] + a[1..] && b == [b[0]] + b[1..];
    }
  }

  /** Two lists with the same elements are empty together. */
  lemma EmptyTogether(a: seq<string>, b: seq<string>)
    requires forall x :: x in a <==> x in b
    ensures a == [] <==> b == []
  {
    if a != [] {
      assert a[0] in b;
    }
    if b != [] {
      assert b[0] in a;
    }
  }

  /** In a strictly sorted list, the elements after the first are the others. */
  lemma SortedTail(a: seq<string>, x: string)
    requires StrictlySorted(a) && a != []
    ensures x in a[1..] <==> x in a && x != a[0]
  {
    if x in a[1..] {
      var i :| 0 <= i < |a| - 1 && a[1..][i] == x;
      assert a[i + 1] == x;
      if x == a[0] {
        BelowIrreflexive(x);
      }
    }
    if x in a && x != a[0] {
      var i :| 0 <= i < |a| && a[i] == x;
      assert a[1..][i - 1] == x;
    }
  }

  /** `sorted(list(names))`: the names in increasing order, each once. */
  method Sorted(names: set<string>) returns (r: seq<string>)
    ensures StrictlySorted(r)
    ensures forall x :: x in r <==> x in names
  {
    r := [];
    var rest := names;
    while rest != {}
      invariant StrictlySorted(r)
      invariant forall x :: x in names <==> x in r || x in rest
      invariant forall x, y :: x in r && y in rest ==> Below(x, y)
      decreases |rest|
    {
      LeastExists(rest);
      var x :| x in rest && forall y :: y in rest && y != x ==> Below(x, y);
      r := r + [x];
      rest := rest - {x};
    }
  }

  /**
   * The header row of `export_to_csv`: nothing when there are no signals
   * (the export stops), otherwise every collected key but `take_profits`,
   * sorted.
   */
  method CsvHeaders(signals: seq<Signal>) returns (headers: Option<seq<string>>)
    ensures headers.None? <==> signals == []
    ensures headers.Some? ==> StrictlySorted(headers.value)
    ensures headers.Some? ==> forall x :: x in headers.value <==> x in HeaderNames(signals)
  {
    if signals == [] {
      return None;
    }
    var names: set<string> := {};
    var i := 0;
    while i < |signals|
      invariant 0 <= i <= |signals|
      invariant names == CollectedKeys(signals[..i])
    {
      assert signals[..i + 1][..i] == signals[..i];
      names := names + StoredKeys(signals[i]);
      names := names + signals[i].takeProfits.Keys;
      i := i + 1;
    }
    assert signals[..i] == signals;
    if "take_profits" in names {
      names := names - {"take_profits"};
    }
    var sorted := Sorted(names);
    headers := Some(sorted);
  }

  /** The collected keys are those of the stored signals and of their take-profits. */
  lemma {:induction false} CollectedKeysOf(signals: seq<Signal>, key: string)
    ensures key in CollectedKeys(signals) <==>
      exists k :: 0 <= k < |signals| && (key in StoredKeys(signals[k]) || key in signals[k].takeProfits)
  {
    if signals != [] {
      var init := signals[..|signals| - 1];
      CollectedKeysOf(init, key);
      if exists k :: 0 <= k < |signals| && (key in StoredKeys(signals[k]) || key in signals[k].takeProfits) {
        var k :| 0 <= k < |signals| && (key in StoredKeys(signals[k]) || key in signals[k].takeProfits);
        if k < |init| {
          assert init[k] == signals[k];
        }
      }
      if key in CollectedKeys(init) {
        var k :| 0 <= k < |init| && (key in StoredKeys(init[k]) || key in init[k].takeProfits);
        assert init[k] == signals[k];
      }
    }
  }

  /**
   * The columns are exactly the keys of the flattened rows: every row fits
   * the header, so the CSV writer accepts every row, and every column is
   * used by some row.
   */
  lemma HeadersAreRowKeys(signals: seq<Signal>, key: string)
    ensures key in HeaderNames(signals) <==> exists k :: 0 <= k < |signals| && key in RowKeys(signals[k])
  {
    CollectedKeysOf(signals, key);
  }

  /** Every column of a non-empty export holds the keys every signal has. */
  lemma FixedColumns(signals: seq<Signal>)
    requires signals != []
    ensures FixedKeys - {"take_profits"} <= HeaderNames(signals)
    ensures "take_profits" !in HeaderNames(signals)
  {
    forall key | key in FixedKeys - {"take_profits"} ensures key in HeaderNames(signals) {
      CollectedKeysOf(signals, key);
      assert key in StoredKeys(signals[0]);
    }
  }
}
