/**
 * The regular expressions of the signal parser, each written out as a
 * matcher with Python `re` semantics for that one pattern: the case folding
 * of `re.IGNORECASE`, greedy runs, the order in which an alternation is
 * tried, leftmost `search` and non-overlapping `findall`.
 *
 * Every pattern here puts a run of whitespace only in front of a character
 * that is not whitespace, so a greedy `\s*` or `\s+` never has to give a
 * character back: the run always ends where the whitespace ends.
 */
module SignalPatterns {
  import opened Wrappers
  import opened Text

  /**
   * The folding `re.IGNORECASE` applies before comparing with an ASCII
   * pattern letter: ASCII case, plus the four other characters that Python
   * equates with an ASCII letter (dotted and dotless i, long s, Kelvin sign).
   */
  function Fold(c: char): char {
    if c == '\U{130}' || c == '\U{131}' then 'i'
    else if c == '\U{17F}' then 's'
    else if c == '\U{212A}' then 'k'
    else LowerAscii(c)
  }

  /** The literal `lit` (lower-case ASCII) matches case-insensitively at `i`. */
  predicate LitAt(s: string, i: nat, lit: string) {
    i + |lit| <= |s| && forall k :: 0 <= k < |lit| ==> Fold(s[i + k]) == lit[k]
  }

  /** `[A-Za-z0-9]` under IGNORECASE. */
  predicate IsWordChar(c: char) {
    IsDigit(c) || 'a' <= Fold(c) <= 'z'
  }

  /** `[\d.]` */
  predicate IsNumberChar(c: char) {
    IsDigit(c) || c == '.'
  }

  /** `\s*` from `i`: where the greedy run of whitespace stops. */
  function SpaceEnd(s: string, i: nat): (j: nat)
    requires i <= |s|
    ensures i <= j <= |s|
    ensures forall k :: i <= k < j ==> IsSpace(s[k])
    ensures j == |s| || !IsSpace(s[j])
    decreases |s| - i
  {
    if i < |s| && IsSpace(s[i]) then SpaceEnd(s, i + 1) else i
  }

  /** A run of whitespace followed by something else is the greedy run. */
  lemma SpaceEndUnique(s: string, i: nat, j: nat)
    requires i <= j <= |s|
    requires forall k :: i <= k < j ==> IsSpace(s[k])
    requires j == |s| || !IsSpace(s[j])
    ensures SpaceEnd(s, i) == j
  {
  }

  /** `[\d.]+` from `i`: where the greedy run of digits and dots stops. */
  function NumberEnd(s: string, i: nat): (j: nat)
    requires i <= |s|
    ensures i <= j <= |s|
    ensures forall k :: i <= k < j ==> IsNumberChar(s[k])
    ensures j == |s| || !IsNumberChar(s[j])
    decreases |s| - i
  {
    if i < |s| && IsNumberChar(s[i]) then NumberEnd(s, i + 1) else i
  }

  /** `\d+` from `i`: where the greedy run of digits stops. */
  function DigitEnd(s: string, i: nat): (j: nat)
    requires i <= |s|
    ensures i <= j <= |s|
    ensures forall k :: i <= k < j ==> IsDigit(s[k])
    ensures j == |s| || !IsDigit(s[j])
    decreases |s| - i
  {
    if i < |s| && IsDigit(s[i]) then DigitEnd(s, i + 1) else i
  }

  /** `[A-Za-z0-9]` repeated from `i`, greedy, but not past `limit`. */
  function WordEnd(s: string, i: nat, limit: nat): (j: nat)
    requires i <= |s|
    ensures i <= j <= |s| && (j <= limit || j == i)
    ensures forall k :: i <= k < j ==> IsWordChar(s[k])
    ensures j == |s| || j >= limit || !IsWordChar(s[j])
    decreases |s| - i
  {
    if i < |s| && i < limit && IsWordChar(s[i]) then WordEnd(s, i + 1, limit) else i
  }

  /** One match: where it starts and ends, and the text of its groups in order. */
  datatype Match = Match(start: nat, end: nat, groups: seq<string>)

  /** The five patterns of the parser. */
  datatype Pattern =
    | HeaderPattern          // ((?:US30|US100|DAX\s*40|NIKKEI|GOLD|[A-Za-z0-9]{3,8}))\s+(BUY|SELL)\s+(NOW|limit from\s+[\d.]+).*?(?:Tp1|Tp\s*1)
    | StopLossPattern        // (?:Sl|SI)\s*@\s*([\d.]+)
    | LimitFromPattern       // limit from\s+([\d.]+)
    | TakeProfitPattern      // Tp\s*(\d+)\s*@\s*([\d.]+)
    | SecondDirectionPattern // and\s+(BUY|SELL)

  // ---------------------------------------------------------------------
  // The signal header

  /** `BUY|SELL` at `d`: where the direction word ends. */
  function DirectionEnd(s: string, d: nat): (r: Option<nat>)
    ensures r.Some? <==> LitAt(s, d, "buy") || LitAt(s, d, "sell")
    ensures r.Some? ==> r.value <= |s| && (r.value == d + 3 || r.value == d + 4)
  {
    if LitAt(s, d, "buy") then Some(d + 3)
    else if LitAt(s, d, "sell") then Some(d + 4)
    else None
  }

  /** `NOW|limit from\s+[\d.]+` at `t`: where the entry part ends. */
  function EntryEnd(s: string, t: nat): (r: Option<nat>)
    requires t <= |s|
    ensures r.Some? ==> t < r.value <= |s|
    ensures r.Some? ==> LitAt(s, t, "now") || LitAt(s, t, "limit from")
  {
    if LitAt(s, t, "now") then Some(t + 3)
    else if LitAt(s, t, "limit from") && t + 10 < |s| && IsSpace(s[t + 10]) then
      var b := SpaceEnd(s, t + 10);
      if b < |s| && IsNumberChar(s[b]) then Some(NumberEnd(s, b)) else None
    else None
  }

  /** `Tp\s*1` at `q` */
  predicate TpOneAt(s: string, q: nat) {
    LitAt(s, q, "tp") && SpaceEnd(s, q + 2) < |s| && s[SpaceEnd(s, q + 2)] == '1'
  }

  /** The lazy `.*?(?:Tp1|Tp\s*1)`: the first `Tp1` at or after `from`. */
  function FirstTpOne(s: string, from: nat): (r: Option<nat>)
    requires from <= |s|
    ensures r.Some? ==> from <= r.value < |s| && TpOneAt(s, r.value)
    ensures r.Some? ==> forall q :: from <= q < r.value ==> !TpOneAt(s, q)
    ensures r.None? ==> forall q :: from <= q ==> !TpOneAt(s, q)
    decreases |s| - from
  {
    if from == |s| then None
    else if TpOneAt(s, from) then Some(from)
    else FirstTpOne(s, from + 1)
  }

  /** Positions inside a header match that follow the symbol token. */
  datatype Rest = Rest(dirStart: nat, dirEnd: nat, entryStart: nat, entryEnd: nat, end: nat)

  /** `\s+(BUY|SELL)\s+(NOW|limit from\s+[\d.]+).*?(?:Tp1|Tp\s*1)` at `e`. */
  function RestAt(s: string, e: nat): (r: Option<Rest>)
    ensures r.Some? ==> e < r.value.dirStart < r.value.dirEnd < r.value.entryStart < r.value.entryEnd < r.value.end <= |s|
    ensures r.Some? ==> forall k :: e <= k < r.value.dirStart ==> IsSpace(s[k])
    ensures r.Some? ==> DirectionEnd(s, r.value.dirStart) == Some(r.value.dirEnd)
    ensures r.Some? ==> forall k :: r.value.dirEnd <= k < r.value.entryStart ==> IsSpace(s[k])
    ensures r.Some? ==> EntryEnd(s, r.value.entryStart) == Some(r.value.entryEnd)
    ensures r.Some? ==> exists q :: r.value.entryEnd <= q < r.value.end && TpOneAt(s, q)
  {
    if e < |s| && IsSpace(s[e]) then
      var d := SpaceEnd(s, e);
      match DirectionEnd(s, d)
      case None => None
      case Some(x) =>
        if x < |s| && IsSpace(s[x]) then
          var t := SpaceEnd(s, x);
          match EntryEnd(s, t)
          case None => None
          case Some(y) =>
            match FirstTpOne(s, y)
            case None => None
            case Some(q) => Some(Rest(d, x, t, y, SpaceEnd(s, q + 2) + 1))
        else None
    else None
  }

  /** `p + n`, `p + n - 1`, ..., `p + 3`: the greedy `{3,8}` giving back one character at a time. */
  function WordEnds(p: nat, n: nat): (r: seq<nat>)
    ensures forall k :: 0 <= k < |r| ==> p + 3 <= r[k] <= p + n
    ensures forall e :: p + 3 <= e <= p + n ==> e in r
    decreases n
  {
    if n < 3 then [] else [p + n] + WordEnds(p, n - 1)
  }

  /** The ends of the named instruments at `p`, in the order the alternation lists them. */
  function NamedEnds(s: string, p: nat): seq<nat>
    requires p <= |s|
  {
    (if LitAt(s, p, "us30") then [p + 4] else [])
    + (if LitAt(s, p, "us100") then [p + 5] else [])
    + (if LitAt(s, p, "dax") && LitAt(s, SpaceEnd(s, p + 3), "40") then [SpaceEnd(s, p + 3) + 2] else [])
    + (if LitAt(s, p, "nikkei") then [p + 6] else [])
    + (if LitAt(s, p, "gold") then [p + 4] else [])
  }

  /** The ends `[A-Za-z0-9]{3,8}` tries at `p`, longest first. */
  function WordTokenEnds(s: string, p: nat): seq<nat>
    requires p <= |s|
  {
    WordEnds(p, WordEnd(s, p, p + 8) - p)
  }

  /** The ends of the symbol token at `p`, in the order the alternation tries them. */
  function SymbolEnds(s: string, p: nat): seq<nat>
    requires p <= |s|
  {
    NamedEnds(s, p) + WordTokenEnds(s, p)
  }

  /** `s[p..e]` is one of the named instruments. */
  ghost predicate IsNamedToken(s: string, p: nat, e: nat) {
    || (e == p + 4 && LitAt(s, p, "us30"))
    || (e == p + 5 && LitAt(s, p, "us100"))
    || (p + 5 <= e && LitAt(s, p, "dax") && LitAt(s, e - 2, "40") && (forall k :: p + 3 <= k < e - 2 ==> IsSpace(s[k])))
    || (e == p + 6 && LitAt(s, p, "nikkei"))
    || (e == p + 4 && LitAt(s, p, "gold"))
  }

  /** `s[p..e]` is three to eight letters and digits. */
  ghost predicate IsWordToken(s: string, p: nat, e: nat) {
    p + 3 <= e <= p + 8 && e <= |s| && forall k :: p <= k < e ==> IsWordChar(s[k])
  }

  /** `s[p..e]` is a symbol token: one of the named instruments, or three to eight letters and digits. */
  ghost predicate IsSymbolToken(s: string, p: nat, e: nat) {
    IsNamedToken(s, p, e) || IsWordToken(s, p, e)
  }

  /** Only letters fold to something else. */
  lemma FoldKeepsNonLetters(c: char)
    ensures !('a' <= Fold(c) <= 'z') ==> Fold(c) == c
  {
  }

  /** `DAX\s*40`: the whitespace run is greedy, so the token ends two past it. */
  lemma DaxTokenEnd(s: string, p: nat, e: nat)
    requires p + 3 <= |s|
    ensures (LitAt(s, SpaceEnd(s, p + 3), "40") && e == SpaceEnd(s, p + 3) + 2)
        <==> (p + 5 <= e && LitAt(s, e - 2, "40") && forall k :: p + 3 <= k < e - 2 ==> IsSpace(s[k]))
  {
    if p + 5 <= e && LitAt(s, e - 2, "40") && forall k :: p + 3 <= k < e - 2 ==> IsSpace(s[k]) {
      assert Fold(s[e - 2 + 0]) == "40"[0] == '4';
      FoldKeepsNonLetters(s[e - 2]);
      SpaceEndUnique(s, p + 3, e - 2);
    }
  }

  lemma NamedEndsAreTokens(s: string, p: nat, e: nat)
    requires p <= |s|
    ensures e in NamedEnds(s, p) <==> IsNamedToken(s, p, e)
  {
    if LitAt(s, p, "dax") {
      DaxTokenEnd(s, p, e);
    }
  }

  lemma WordTokenEndsAreTokens(s: string, p: nat, e: nat)
    requires p <= |s|
    ensures e in WordTokenEnds(s, p) <==> IsWordToken(s, p, e)
  {
  }

  /** The alternation tries only symbol tokens... */
  lemma SymbolEndsAreTokens(s: string, p: nat, e: nat)
    requires p <= |s| && e in SymbolEnds(s, p)
    ensures IsSymbolToken(s, p, e) && p < e <= |s|
  {
    NamedEndsAreTokens(s, p, e);
    WordTokenEndsAreTokens(s, p, e);
  }

  /** ...and every symbol token. */
  lemma TokensAreSymbolEnds(s: string, p: nat, e: nat)
    requires p <= |s| && IsSymbolToken(s, p, e)
    ensures e in SymbolEnds(s, p)
  {
    NamedEndsAreTokens(s, p, e);
    WordTokenEndsAreTokens(s, p, e);
  }

  /** The first end, in the order given, after which the rest of the header matches. */
  function FirstRest(s: string, ends: seq<nat>): (r: Option<(nat, Rest)>)
    ensures r.Some? ==> r.value.0 in ends && RestAt(s, r.value.0) == Some(r.value.1)
    ensures r.None? <==> forall k :: 0 <= k < |ends| ==> RestAt(s, ends[k]).None?
  {
    if ends == [] then None
    else match RestAt(s, ends[0])
      case Some(rest) => Some((ends[0], rest))
      case None => FirstRest(s, ends[1..])
  }

  /** A case-insensitive literal found in `s` is found in any slice that holds it. */
  lemma LitAtSlice(s: string, d: nat, x: nat, lit: string)
    requires LitAt(s, d, lit) && d + |lit| <= x <= |s|
    ensures LitAt(s[d..x], 0, lit)
  {
    forall k | 0 <= k < |lit| ensures Fold(s[d..x][k]) == lit[k] {
      assert s[d..x][k] == s[d + k];
    }
  }

  /** The text of a matched direction word is BUY or SELL in some case. */
  lemma DirectionSlice(s: string, d: nat, x: nat)
    requires DirectionEnd(s, d) == Some(x)
    ensures LitAt(s[d..x], 0, "buy") || LitAt(s[d..x], 0, "sell")
  {
    if LitAt(s, d, "buy") {
      LitAtSlice(s, d, x, "buy");
    } else {
      LitAtSlice(s, d, x, "sell");
    }
  }

  /** When the alternation finds no way to continue, no symbol token at `p` can be continued. */
  lemma NoRestAfterAnyToken(s: string, p: nat)
    requires p <= |s|
    requires FirstRest(s, SymbolEnds(s, p)).None?
    ensures forall e :: IsSymbolToken(s, p, e) ==> RestAt(s, e).None?
  {
    var ends := SymbolEnds(s, p);
    forall e | IsSymbolToken(s, p, e) ensures RestAt(s, e).None? {
      TokensAreSymbolEnds(s, p, e);
      var k :| 0 <= k < |ends| && ends[k] == e;
    }
  }

  /** The match the header pattern reports once the alternation has chosen token end `e`. */
  function HeaderMatch(s: string, p: nat, e: nat, rest: Rest): Match
    requires p <= e <= |s| && rest.dirStart <= rest.dirEnd <= |s| && rest.entryStart <= rest.entryEnd <= |s|
  {
    Match(p, rest.end, [s[p..e], s[rest.dirStart..rest.dirEnd], s[rest.entryStart..rest.entryEnd]])
  }

  /** The token end the alternation chose, and the rest of the header after it. */
  lemma HeaderChoice(s: string, p: nat, e: nat, rest: Rest)
    requires p <= |s|
    requires FirstRest(s, SymbolEnds(s, p)) == Some((e, rest))
    ensures p < e < rest.dirStart < rest.dirEnd < rest.entryStart < rest.entryEnd < rest.end <= |s|
    ensures IsSymbolToken(s, p, e) && RestAt(s, e) == Some(rest)
  {
    SymbolEndsAreTokens(s, p, e);
  }

  /**
   * `m` is a header match at `p`: its first group is a symbol token after
   * which the rest of the header matches, and its second is BUY or SELL in
   * any case.
   */
  ghost predicate IsHeaderMatch(s: string, p: nat, m: Match) {
    && m.start == p && p < m.end <= |s| && |m.groups| == 3
    && (LitAt(m.groups[1], 0, "buy") || LitAt(m.groups[1], 0, "sell"))
    && exists e :: p < e <= |s| && m.groups[0] == s[p..e] && IsSymbolToken(s, p, e) && RestAt(s, e).Some?
  }

  /** The match built from the alternation's choice is a header match. */
  lemma HeaderFound(s: string, p: nat, e: nat, rest: Rest)
    requires p <= |s|
    requires FirstRest(s, SymbolEnds(s, p)) == Some((e, rest))
    ensures p < e < rest.dirStart < rest.dirEnd < rest.entryStart < rest.entryEnd < rest.end <= |s|
    ensures IsHeaderMatch(s, p, HeaderMatch(s, p, e, rest))
  {
    HeaderChoice(s, p, e, rest);
    DirectionSlice(s, rest.dirStart, rest.dirEnd);
    HeaderMatchIsHeader(s, p, e, rest);
  }

  lemma HeaderMatchIsHeader(s: string, p: nat, e: nat, rest: Rest)
    requires p < e < rest.dirStart < rest.dirEnd < rest.entryStart < rest.entryEnd < rest.end <= |s|
    requires IsSymbolToken(s, p, e) && RestAt(s, e) == Some(rest)
    requires LitAt(s[rest.dirStart..rest.dirEnd], 0, "buy") || LitAt(s[rest.dirStart..rest.dirEnd], 0, "sell")
    ensures IsHeaderMatch(s, p, HeaderMatch(s, p, e, rest))
  {
    var m := HeaderMatch(s, p, e, rest);
    assert m.groups[0] == s[p..e] && m.groups[1] == s[rest.dirStart..rest.dirEnd];
  }

  /**
   * The header pattern at `p`, with groups symbol token, direction and entry
   * part. When it matches, the first group is a symbol token after which the
   * rest of the header matches, and the second is BUY or SELL in any case.
   */
  function HeaderAt(s: string, p: nat): (r: Option<Match>)
    requires p <= |s|
    ensures r.Some? ==> IsHeaderMatch(s, p, r.value)
  {
    match FirstRest(s, SymbolEnds(s, p))
    case None => None
    case Some((e, rest)) =>
      HeaderFound(s, p, e, rest);
      Some(HeaderMatch(s, p, e, rest))
  }

  /** The header fails at `p` only when no symbol token at `p` is followed by the rest of the header. */
  lemma HeaderAtFails(s: string, p: nat)
    requires p <= |s| && HeaderAt(s, p).None?
    ensures forall e :: IsSymbolToken(s, p, e) ==> RestAt(s, e).None?
  {
    NoRestAfterAnyToken(s, p);
  }

  // ---------------------------------------------------------------------
  // The patterns applied to the cleaned signal text

  /** `(?:Sl|SI)\s*@\s*([\d.]+)` at `i` under IGNORECASE. */
  function StopLossAt(s: string, i: nat): (r: Option<Match>)
    requires i <= |s|
    ensures r.Some? ==> r.value.start == i && i < r.value.end <= |s|
  {
    if i + 2 <= |s| && Fold(s[i]) == 's' && (Fold(s[i + 1]) == 'l' || Fold(s[i + 1]) == 'i') then
      var a := SpaceEnd(s, i + 2);
      if a < |s| && s[a] == '@' then
        var b := SpaceEnd(s, a + 1);
        if b < |s| && IsNumberChar(s[b]) then Some(Match(i, NumberEnd(s, b), [s[b..NumberEnd(s, b)]]))
        else None
      else None
    else None
  }

  /** `limit from\s+([\d.]+)` at `i` under IGNORECASE. */
  function LimitFromAt(s: string, i: nat): (r: Option<Match>)
    requires i <= |s|
    ensures r.Some? ==> r.value.start == i && i < r.value.end <= |s|
  {
    if LitAt(s, i, "limit from") && i + 10 < |s| && IsSpace(s[i + 10]) then
      var b := SpaceEnd(s, i + 10);
      if b < |s| && IsNumberChar(s[b]) then Some(Match(i, NumberEnd(s, b), [s[b..NumberEnd(s, b)]]))
      else None
    else None
  }

  /** `Tp\s*(\d+)\s*@\s*([\d.]+)` at `i` under IGNORECASE. */
  function TakeProfitAt(s: string, i: nat): (r: Option<Match>)
    requires i <= |s|
    ensures r.Some? ==> r.value.start == i && i < r.value.end <= |s|
  {
    if LitAt(s, i, "tp") then
      var a := SpaceEnd(s, i + 2);
      if a < |s| && IsDigit(s[a]) then
        var a2 := DigitEnd(s, a);
        var c := SpaceEnd(s, a2);
        if c < |s| && s[c] == '@' then
          var b := SpaceEnd(s, c + 1);
          if b < |s| && IsNumberChar(s[b]) then Some(Match(i, NumberEnd(s, b), [s[a..a2], s[b..NumberEnd(s, b)]]))
          else None
        else None
      else None
    else None
  }

  /** `and\s+(BUY|SELL)` at `i` under IGNORECASE. */
  function SecondDirectionAt(s: string, i: nat): (r: Option<Match>)
    requires i <= |s|
    ensures r.Some? ==> r.value.start == i && i < r.value.end <= |s|
  {
    if LitAt(s, i, "and") && i + 3 < |s| && IsSpace(s[i + 3]) then
      var d := SpaceEnd(s, i + 3);
      match DirectionEnd(s, d)
      case None => None
      case Some(x) => Some(Match(i, x, [s[d..x]]))
    else None
  }

  /** A pattern tried at one position (`re.match` semantics from `i`). */
  function MatchAt(pat: Pattern, s: string, i: nat): (r: Option<Match>)
    requires i <= |s|
    ensures r.Some? ==> r.value.start == i && i < r.value.end <= |s|
  {
    match pat
    case HeaderPattern => HeaderAt(s, i)
    case StopLossPattern => StopLossAt(s, i)
    case LimitFromPattern => LimitFromAt(s, i)
    case TakeProfitPattern => TakeProfitAt(s, i)
    case SecondDirectionPattern => SecondDirectionAt(s, i)
  }

  // ---------------------------------------------------------------------
  // Searching a text of length `n` with any matcher

  /** Tried at `i`, a matcher either fails or matches from `i` to a later position within the text. */
  ghost predicate IsMatcher(m: nat -> Option<Match>, n: nat) {
    forall i: nat :: m(i).Some? ==> m(i).value.start == i < m(i).value.end <= n
  }

  /** The matcher of a pattern over `s`; past the end nothing matches. */
  function Matcher(pat: Pattern, s: string): (m: nat -> Option<Match>)
    ensures IsMatcher(m, |s|)
    ensures forall i: nat :: i <= |s| ==> m(i) == MatchAt(pat, s, i)
  {
    (i: nat) => if i <= |s| then MatchAt(pat, s, i) else None
  }

  /** No match starts anywhere in `[lo, hi)`. */
  ghost predicate NoMatchBetween(m: nat -> Option<Match>, lo: nat, hi: nat) {
    forall j :: lo <= j < hi ==> m(j).None?
  }

  /** `re.search` from `from`: the leftmost match starting there or later. */
  function Search(m: nat -> Option<Match>, n: nat, from: nat): (r: Option<Match>)
    requires IsMatcher(m, n) && from <= n
    ensures r.Some? ==> from <= r.value.start < r.value.end <= n && m(r.value.start) == r
    ensures r.Some? ==> NoMatchBetween(m, from, r.value.start)
    ensures r.None? ==> NoMatchBetween(m, from, n + 1)
    decreases n - from
  {
    if m(from).Some? then m(from)
    else if from == n then None
    else Search(m, n, from + 1)
  }

  /**
   * `re.findall` from `from`: the leftmost match, then the leftmost match
   * from where it ended, and so on.
   */
  function FindAll(m: nat -> Option<Match>, n: nat, from: nat): (r: seq<Match>)
    requires IsMatcher(m, n) && from <= n
    decreases n - from
  {
    match Search(m, n, from)
    case None => []
    case Some(x) => [x] + FindAll(m, n, x.end)
  }

  /** Every element of `r` is a match of `m` at or after `from`, left to right and not overlapping. */
  ghost predicate MatchesInOrder(m: nat -> Option<Match>, n: nat, from: nat, r: seq<Match>) {
    && (forall k :: 0 <= k < |r| ==> from <= r[k].start < r[k].end <= n && m(r[k].start) == Some(r[k]))
    && (forall k :: 0 <= k < |r| - 1 ==> r[k].end <= r[k + 1].start)
  }

  /** What `findall` returns are real matches, left to right and not overlapping. */
  lemma {:induction false} FindAllMatches(m: nat -> Option<Match>, n: nat, from: nat)
    requires IsMatcher(m, n) && from <= n
    ensures MatchesInOrder(m, n, from, FindAll(m, n, from))
    decreases n - from
  {
    match Search(m, n, from)
    case None =>
    case Some(x) =>
      FindAllMatches(m, n, x.end);
      assert FindAll(m, n, from) == [x] + FindAll(m, n, x.end);
  }

  /** `findall` misses no match: none starts before the first, between two, or after the last. */
  lemma {:induction false} FindAllMissesNothing(m: nat -> Option<Match>, n: nat, from: nat)
    requires IsMatcher(m, n) && from <= n
    ensures var r := FindAll(m, n, from);
      && (forall k :: 0 <= k < |r| - 1 ==> NoMatchBetween(m, r[k].end, r[k + 1].start))
      && (r == [] ==> NoMatchBetween(m, from, n + 1))
      && (r != [] ==> NoMatchBetween(m, from, r[0].start) && NoMatchBetween(m, r[|r| - 1].end, n + 1))
    decreases n - from
  {
    match Search(m, n, from)
    case None =>
    case Some(x) =>
      FindAllMissesNothing(m, n, x.end);
      var rest := FindAll(m, n, x.end);
      assert FindAll(m, n, from) == [x] + rest;
      if rest != [] {
        assert rest[0] == Search(m, n, x.end).value;
      }
  }
}
