/**
 * `parse_signal_message` and `format_signal_for_posting` of the signal
 * extractor: find the signal header in a message, cut the signal section
 * after its stop-loss line, clean its lines, and read the entry, the second
 * direction, the take-profits and the stop-loss out of the cleaned text.
 */
module SignalExtractor {
  import opened Wrappers
  import opened Text
  import opened Dicts
  import opened SignalPatterns

  /** `entry_type` with `entry_points`: `market`, or `limit` with the prices read. */
  datatype Entry = MarketEntry | LimitEntries(points: seq<real>)

  /** The signal dictionary; `direction2` and `stop_loss` are keys that may be missing. */
  datatype Signal = Signal(
    symbol: string, direction: string, rawMessage: string, entry: Entry,
    direction2: Option<string>, takeProfits: map<string, real>, stopLoss: Option<real>)

  /**
   * What parsing a message gives: `None`, a signal, or the `ValueError` that
   * `int()` or `float()` raises on a take-profit or stop-loss text (it leaves
   * the parser; the caller's handler catches it).
   */
  datatype ParseOutcome = NotASignal | Parsed(signal: Signal) | Raised

  /** A number looked up in the text: no match, its value, or a text `float()` rejects. */
  datatype Reading = Absent | Found(value: real) | Unparsable

  /** The text of group `k` of a match; every match of a pattern has all of its groups. */
  function Group(m: Match, k: nat): string {
    if k < |m.groups| then m.groups[k] else ""
  }

  /** `re.search(pattern, s)` */
  function First(pat: Pattern, s: string): (r: Option<Match>)
    ensures r.Some? ==> r.value.start < r.value.end <= |s| && MatchAt(pat, s, r.value.start) == r
    ensures r.Some? ==> forall j :: 0 <= j < r.value.start ==> MatchAt(pat, s, j).None?
    ensures r.None? ==> forall j :: 0 <= j <= |s| ==> MatchAt(pat, s, j).None?
  {
    var m := Matcher(pat, s);
    var r := Search(m, |s|, 0);
    assert r.Some? ==> forall j :: 0 <= j < r.value.start ==> m(j).None?;
    assert r.None? ==> forall j :: 0 <= j <= |s| ==> m(j).None?;
    r
  }

  /** `re.findall(pattern, s)`, as the matches rather than their groups. */
  function All(pat: Pattern, s: string): (r: seq<Match>)
    ensures forall k :: 0 <= k < |r| ==> r[k].start < r[k].end <= |s| && MatchAt(pat, s, r[k].start) == Some(r[k])
  {
    var m := Matcher(pat, s);
    FindAllMatches(m, |s|, 0);
    FindAll(m, |s|, 0)
  }

  predicate IsDigitText(t: string) {
    forall k :: 0 <= k < |t| ==> IsDigit(t[k])
  }

  predicate IsNumberText(t: string) {
    forall k :: 0 <= k < |t| ==> IsNumberChar(t[k])
  }

  /**
   * `float(t)` on the texts it gets here, which `[\d.]+` captured (see
   * CapturedNumbers): a number when there is a digit and at most one dot.
   * Texts with other characters never reach it and are read as rejected.
   */
  function Float(t: string): (r: Option<real>)
    ensures r.Some? <==> IsNumberText(t) && (exists k :: 0 <= k < |t| && IsDigit(t[k]))
                         && forall j, k :: 0 <= j < k < |t| && t[j] == '.' ==> t[k] != '.'
    ensures r.Some? ==> r.value >= 0.0
  {
    if IsNumberText(t) then ParseDecimal(t) else None
  }

  // ---------------------------------------------------------------------
  // The signal text

  /**
   * The section cut after its stop-loss: up to the first line break after
   * the `Sl @ <number>` match, or ten characters past the match when no line
   * break follows; the whole section when it has no stop-loss.
   */
  function CutSection(section: string): (r: string)
    ensures r <= section
    ensures First(StopLossPattern, section).None? ==> r == section
    ensures First(StopLossPattern, section).Some? ==>
      var e := First(StopLossPattern, section).value.end;
      && e <= |r|
      && (forall k :: e <= k < |r| ==> r[k] != '\n')
      && (|r| == |section| || section[|r|] == '\n' || |r| == e + 10)
  {
    match First(StopLossPattern, section)
    case None => section
    case Some(m) =>
      match Find(section, '\n', m.end)
      case Some(b) => section[..b]
      case None => section[..if m.end + 10 <= |section| then m.end + 10 else |section|]
  }

  /** `re.sub(r'[^\x00-\x7F]+$', '', s)` on a stripped line: the non-ASCII run at its end removed. */
  function DropTrailingNonAscii(s: string): (r: string)
    ensures r <= s
    ensures r == [] || IsAscii(r[|r| - 1])
    ensures forall k :: |r| <= k < |s| ==> !IsAscii(s[k])
  {
    if s != [] && !IsAscii(s[|s| - 1]) then DropTrailingNonAscii(s[..|s| - 1]) else s
  }

  /** One line as the cleaning loop leaves it: stripped, then its trailing non-ASCII run removed. */
  function CleanLine(line: string): string {
    DropTrailingNonAscii(Strip(line))
  }

  /** `cleaned_lines`: every line cleaned, the ones left empty dropped, the order kept. */
  function CleanLines(lines: seq<string>): seq<string> {
    if lines == [] then []
    else
      var last := CleanLine(lines[|lines| - 1]);
      CleanLines(lines[..|lines| - 1]) + (if last != [] then [last] else [])
  }

  /** `cleaned_lines` for a section: the cleaned lines of the section once cut. */
  function SectionLines(section: string): seq<string> {
    CleanLines(Split(CutSection(section), '\n'))
  }

  /** `signal_text`: the cleaned lines joined by line breaks. */
  function SignalText(section: string): string {
    Join(SectionLines(section), '\n')
  }

  // ---------------------------------------------------------------------
  // The fields

  /** `s.lstrip('.')` */
  function LStripDots(s: string): (r: string)
    ensures |r| <= |s| && r == s[|s| - |r|..]
    ensures r == [] || r[0] != '.'
    ensures forall k :: 0 <= k < |s| - |r| ==> s[k] == '.'
  {
    if s != [] && s[0] == '.' then LStripDots(s[1..]) else s
  }

  /** `float(e.strip().lstrip('.'))`, None for the `ValueError` that makes the loop skip `e`. */
  function EntryValue(e: string): (r: Option<real>)
    ensures r.Some? ==> r.value >= 0.0
  {
    Float(LStripDots(Strip(e)))
  }

  /** The values the entry loop reads, one per `limit from` match; None where `float()` raises. */
  function EntryValues(ms: seq<Match>): (r: seq<Option<real>>)
    ensures |r| == |ms|
  {
    seq(|ms|, k requires 0 <= k < |ms| => EntryValue(Group(ms[k], 0)))
  }

  /** `entries`: the values read, in order, the ones that raised skipped. */
  function SomeValues(vs: seq<Option<real>>): seq<real> {
    if vs == [] then []
    else SomeValues(vs[..|vs| - 1]) + (if vs[|vs| - 1].Some? then [vs[|vs| - 1].value] else [])
  }

  /** Market when `NOW` occurs in the upper-cased text, otherwise limit with the `limit from` prices. */
  function EntryOf(text: string): Entry {
    if Contains(Upper(text), "NOW") then MarketEntry
    else LimitEntries(SomeValues(EntryValues(All(LimitFromPattern, text))))
  }

  /** `direction2`: looked for only in a limit signal whose text contains `and `. */
  function SecondDirection(text: string, entry: Entry): Option<string> {
    if entry.LimitEntries? && Contains(text, "and ") then
      match First(SecondDirectionPattern, text)
      case None => None
      case Some(m) => Some(Group(m, 0))
    else None
  }

  /** The key `f'tp{int(n)}'` of a take-profit match, None when `int()` raises. */
  function TakeProfitKey(m: Match): Option<string> {
    match ParseInt(Group(m, 0))
    case None => None
    case Some(n) => Some("tp" + IntToString(n))
  }

  /** The key and `float(v)` of a take-profit match, None when a conversion raises. */
  function TakeProfitPair(m: Match): Option<(string, real)> {
    match TakeProfitKey(m)
    case None => None
    case Some(key) =>
      match Float(Group(m, 1))
      case None => None
      case Some(v) => Some((key, v))
  }

  /**
   * The pairs the take-profit loop inserts, in order; None when a conversion
   * raises, which ends the loop and the parse.
   */
  function TakeProfitPairs(ms: seq<Match>): Option<seq<(string, real)>> {
    if forall k :: 0 <= k < |ms| ==> TakeProfitPair(ms[k]).Some? then
      Some(seq(|ms|, k requires 0 <= k < |ms| => TakeProfitPair(ms[k]).value))
    else None
  }

  /** `take_profits`: the pairs inserted one after the other into an empty dictionary. */
  function TakeProfitMap(ms: seq<Match>): Option<map<string, real>> {
    match TakeProfitPairs(ms)
    case None => None
    case Some(pairs) => Some(BuildMap(pairs))
  }

  /** `stop_loss`: the value of the first `Sl @ <number>` match of the text. */
  function StopLossOf(text: string): Reading {
    match First(StopLossPattern, text)
    case None => Absent
    case Some(m) =>
      match Float(Group(m, 0))
      case None => Unparsable
      case Some(v) => Found(v)
  }

  /** The take-profit matches of a text, left to right. */
  function TakeProfitMatches(text: string): seq<Match> {
    All(TakeProfitPattern, text)
  }

  /**
   * The signal read from the cleaned text once the header `h` is found: the
   * fields in the order the parser fills them.
   */
  function ReadSignal(h: Match, text: string): ParseOutcome {
    var entry := EntryOf(text);
    match TakeProfitMap(TakeProfitMatches(text))
    case None => Raised
    case Some(tps) =>
      match StopLossOf(text)
      case Unparsable => Raised
      case Absent => Parsed(Signal(Strip(Group(h, 0)), Group(h, 1), text, entry, SecondDirection(text, entry), tps, None))
      case Found(v) => Parsed(Signal(Strip(Group(h, 0)), Group(h, 1), text, entry, SecondDirection(text, entry), tps, Some(v)))
  }

  /** `parse_signal_message` */
  function ParseSignal(msg: string): ParseOutcome {
    match First(HeaderPattern, msg)
    case None => NotASignal
    case Some(h) => ReadSignal(h, SignalText(msg[h.start..]))
  }

  /** `format_signal_for_posting`: the signal's own cleaned text. */
  function FormatForPosting(signal: Signal): string {
    signal.rawMessage
  }

  // ---------------------------------------------------------------------
  // What the captured groups hold

  /** The value group of a `limit from` match is a run of digits and dots. */
  lemma LimitFromGroup(s: string, i: nat)
    requires i <= |s| && MatchAt(LimitFromPattern, s, i).Some?
    ensures var m := MatchAt(LimitFromPattern, s, i).value;
      |m.groups| == 1 && m.groups[0] != [] && IsNumberText(m.groups[0])
  {
  }

  /** The value group of a stop-loss match is a run of digits and dots. */
  lemma StopLossGroup(s: string, i: nat)
    requires i <= |s| && MatchAt(StopLossPattern, s, i).Some?
    ensures var m := MatchAt(StopLossPattern, s, i).value;
      |m.groups| == 1 && m.groups[0] != [] && IsNumberText(m.groups[0])
  {
  }

  /** A take-profit match captures a run of digits and a run of digits and dots. */
  lemma TakeProfitGroups(s: string, i: nat)
    requires i <= |s| && MatchAt(TakeProfitPattern, s, i).Some?
    ensures var m := MatchAt(TakeProfitPattern, s, i).value;
      && |m.groups| == 2 && m.groups[0] != [] && m.groups[1] != [] && IsNumberText(m.groups[1])
      && forall k :: 0 <= k < |m.groups[0]| ==> IsDigit(m.groups[0][k])
  {
  }

  /** A second-direction match captures BUY or SELL in some case. */
  lemma SecondDirectionGroup(s: string, i: nat)
    requires i <= |s| && MatchAt(SecondDirectionPattern, s, i).Some?
    ensures var m := MatchAt(SecondDirectionPattern, s, i).value;
      |m.groups| == 1 && (LitAt(m.groups[0], 0, "buy") || LitAt(m.groups[0], 0, "sell"))
  {
    var m := MatchAt(SecondDirectionPattern, s, i).value;
    var d := SpaceEnd(s, i + 3);
    DirectionSlice(s, d, m.end);
  }

  /**
   * `int()` never raises on a captured take-profit number: the key is `tp`
   * followed by the number without leading zeros, and the match gives a pair
   * exactly when `float()` accepts its value.
   */
  lemma TakeProfitPairOfMatch(s: string, i: nat)
    requires i <= |s| && MatchAt(TakeProfitPattern, s, i).Some?
    ensures |MatchAt(TakeProfitPattern, s, i).value.groups| == 2
    ensures IsDigitText(MatchAt(TakeProfitPattern, s, i).value.groups[0])
    ensures TakeProfitKey(MatchAt(TakeProfitPattern, s, i).value)
            == Some("tp" + NatToString(DigitsValue(MatchAt(TakeProfitPattern, s, i).value.groups[0])))
    ensures TakeProfitPair(MatchAt(TakeProfitPattern, s, i).value).Some?
            <==> Float(MatchAt(TakeProfitPattern, s, i).value.groups[1]).Some?
  {
    TakeProfitGroups(s, i);
    var m := MatchAt(TakeProfitPattern, s, i).value;
    ParseIntOfDigits(m.groups[0], DigitsValue(m.groups[0]));
  }

  // ---------------------------------------------------------------------
  // The cleaned lines

  /** A line as it stands in a signal text: not empty, no line break, no leading whitespace, ASCII at the end. */
  predicate IsCleanLine(c: string) {
    c != [] && '\n' !in c && !IsSpace(c[0]) && IsAscii(c[|c| - 1])
  }

  /** Cleaning a line without a line break leaves nothing or a clean line. */
  lemma CleanLineShape(line: string)
    requires '\n' !in line
    ensures CleanLine(line) == [] || IsCleanLine(CleanLine(line))
  {
    var c := CleanLine(line);
    var l := LStrip(line);
    var t := Strip(line);
    assert t == l[..|t|];
    forall k | 0 <= k < |c| ensures c[k] != '\n' {
      assert c[k] == t[k] == l[k] == line[|line| - |l| + k];
    }
  }

  /** The cleaned lines of lines without line breaks are clean lines. */
  lemma {:induction false} CleanLinesShape(lines: seq<string>)
    requires forall i :: 0 <= i < |lines| ==> '\n' !in lines[i]
    ensures forall k :: 0 <= k < |CleanLines(lines)| ==> IsCleanLine(CleanLines(lines)[k])
  {
    if lines != [] {
      var init, last := lines[..|lines| - 1], lines[|lines| - 1];
      CleanLinesShape(init);
      CleanLineShape(last);
      var r := CleanLines(lines);
      assert r == CleanLines(init) + (if CleanLine(last) != [] then [CleanLine(last)] else []);
    }
  }

  /**
   * The signal text consists of the cleaned lines of the cut section: it is
   * empty exactly when none is left, and otherwise splitting it at line
   * breaks gives them back, each non-empty, starting with no whitespace and
   * ending in ASCII.
   */
  lemma SignalTextLines(section: string)
    ensures SignalText(section) == [] <==> SectionLines(section) == []
    ensures SectionLines(section) != [] ==> Split(SignalText(section), '\n') == SectionLines(section)
    ensures forall k :: 0 <= k < |SectionLines(section)| ==> IsCleanLine(SectionLines(section)[k])
  {
    var lines := SectionLines(section);
    CleanLinesShape(Split(CutSection(section), '\n'));
    if lines != [] {
      SplitJoin(lines, '\n');
      assert |Join(lines, '\n')| >= |lines[0]| > 0;
    }
  }

  // ---------------------------------------------------------------------
  // The parse

  /** A parsed signal comes from a header match and the cleaned text after it. */
  lemma ParsedFrom(msg: string, sig: Signal) returns (h: Match)
    requires ParseSignal(msg) == Parsed(sig)
    ensures First(HeaderPattern, msg) == Some(h)
    ensures ReadSignal(h, SignalText(msg[h.start..])) == Parsed(sig)
    ensures sig.rawMessage == SignalText(msg[h.start..])
  {
    h := First(HeaderPattern, msg).value;
    ReadParts(h, SignalText(msg[h.start..]), sig);
  }

  /** How each field of a signal read from a text was found in it. */
  lemma ReadParts(h: Match, text: string, sig: Signal)
    requires ReadSignal(h, text) == Parsed(sig)
    ensures sig.rawMessage == text
    ensures sig.symbol == Strip(Group(h, 0)) && sig.direction == Group(h, 1)
    ensures sig.entry == EntryOf(text)
    ensures sig.direction2 == SecondDirection(text, sig.entry)
    ensures TakeProfitMap(TakeProfitMatches(text)) == Some(sig.takeProfits)
    ensures StopLossOf(text) != Unparsable
    ensures sig.stopLoss.Some? <==> StopLossOf(text).Found?
    ensures sig.stopLoss.Some? ==> sig.stopLoss.value == StopLossOf(text).value
  {
  }


  /**
   * The header pattern finds nothing exactly when no symbol token anywhere in
   * the message is followed by whitespace, BUY or SELL, whitespace, an entry
   * part and a later `Tp1`.
   */
  lemma NoHeaderIff(msg: string)
    ensures First(HeaderPattern, msg).None?
            <==> forall p, e :: 0 <= p <= |msg| && IsSymbolToken(msg, p, e) ==> RestAt(msg, e).None?
  {
    if First(HeaderPattern, msg).None? {
      forall p, e | 0 <= p <= |msg| && IsSymbolToken(msg, p, e) ensures RestAt(msg, e).None? {
        NoHeaderAt(msg, p);
      }
    } else {
      var h := First(HeaderPattern, msg).value;
      HeaderContinues(msg, h);
    }
  }

  lemma NoHeaderAt(msg: string, p: nat)
    requires First(HeaderPattern, msg).None? && p <= |msg|
    ensures forall e :: IsSymbolToken(msg, p, e) ==> RestAt(msg, e).None?
  {
    assert MatchAt(HeaderPattern, msg, p).None?;
    HeaderAtFails(msg, p);
  }

  lemma HeaderContinues(msg: string, h: Match)
    requires First(HeaderPattern, msg) == Some(h)
    ensures exists e :: IsSymbolToken(msg, h.start, e) && RestAt(msg, e).Some?
  {
    assert HeaderAt(msg, h.start) == Some(h);
  }

  /** A message is no signal exactly when the header pattern finds nothing in it. */
  lemma NotASignalIff(msg: string)
    ensures ParseSignal(msg).NotASignal?
            <==> forall p, e :: 0 <= p <= |msg| && IsSymbolToken(msg, p, e) ==> RestAt(msg, e).None?
  {
    ParseNoneIff(msg);
    NoHeaderIff(msg);
  }

  /** Parsing gives no signal exactly when the header search fails: reading a found header never does. */
  lemma ParseNoneIff(msg: string)
    ensures ParseSignal(msg).NotASignal? <==> First(HeaderPattern, msg).None?
  {
    match First(HeaderPattern, msg)
    case None =>
    case Some(h) => ReadFindsOrRaises(h, SignalText(msg[h.start..]));
  }

  /** Reading the text after a header gives a signal or raises, never "no signal". */
  lemma ReadFindsOrRaises(h: Match, text: string)
    ensures ReadSignal(h, text).Parsed? || ReadSignal(h, text).Raised?
  {
  }

  /**
   * A parsed signal comes from the leftmost header: its symbol is the
   * stripped symbol token, its direction BUY or SELL in the message's own
   * case, and its text the cleaned section from the header on.
   */
  lemma ParsedHeader(msg: string, sig: Signal)
    requires ParseSignal(msg) == Parsed(sig)
    ensures exists p, e :: 0 <= p < e <= |msg| && IsSymbolToken(msg, p, e) && RestAt(msg, e).Some?
              && (forall j :: 0 <= j < p ==> HeaderAt(msg, j).None?)
              && sig.symbol == Strip(msg[p..e]) && sig.rawMessage == SignalText(msg[p..])
    ensures LitAt(sig.direction, 0, "buy") || LitAt(sig.direction, 0, "sell")
  {
    var h := ParsedFrom(msg, sig);
    ReadParts(h, sig.rawMessage, sig);
    assert HeaderAt(msg, h.start) == Some(h);
    var e :| h.start < e <= |msg| && h.groups[0] == msg[h.start..e] && IsSymbolToken(msg, h.start, e) && RestAt(msg, e).Some?;
    forall j | 0 <= j < h.start ensures HeaderAt(msg, j).None? {
      assert MatchAt(HeaderPattern, msg, j).None?;
    }
    assert Group(h, 0) == msg[h.start..e];
  }

  /** `float()` on a captured entry value: stripping changes nothing, the leading dots go. */
  lemma EntryValueOfNumber(t: string)
    requires t != [] && IsNumberText(t)
    ensures EntryValue(t) == Float(LStripDots(t))
  {
    assert !IsSpace(t[0]) && !IsSpace(t[|t| - 1]);
    StripUnspaced(t);
  }

  /** `float()` of digits without a dot is the integer they spell. */
  lemma FloatOfDigits(t: string)
    requires t != [] && IsDigitText(t)
    ensures Float(t) == Some(DigitsValue(t) as real)
  {
    ParseDecimalOfDigits(t);
  }

  /** `float()` of `whole.frac`: the digits without the dot, over ten to the number of decimals. */
  lemma FloatOfDotted(t: string, whole: string, frac: string)
    requires t == whole + "." + frac && whole + frac != []
    requires IsDigitText(whole) && IsDigitText(frac)
    ensures IsDigitText(whole + frac)
    ensures Float(t) == Some(DigitsValue(whole + frac) as real / Power10(|frac|) as real)
  {
    ParseDecimalOfDotted(t, whole, frac);
    assert IsNumberText(t) by {
      forall k | 0 <= k < |t| ensures IsNumberChar(t[k]) {
        if k < |whole| {
          assert t[k] == whole[k];
        } else if k > |whole| {
          assert t[k] == frac[k - |whole| - 1];
        }
      }
    }
  }

  /** The digit values the examples below use. */
  lemma DigitsExamples()
    ensures DigitsValue("2960") == 2960 && DigitsValue("29605") == 29605 && DigitsValue("5") == 5
  {
    assert "29605"[..4] == "2960" && "2960"[..3] == "296" && "296"[..2] == "29" && "29"[..1] == "2";
    assert "2"[..0] == "" && "5"[..0] == "";
  }

  lemma FloatOfWholePrice()
    ensures Float("2960") == Some(2960.0)
  {
    DigitsExamples();
    FloatOfDigits("2960");
  }

  lemma FloatOfDecimalPrice()
    ensures Float("2960.5") == Some(2960.5)
  {
    var whole, frac := "2960", "5";
    assert IsDigitText(whole) && IsDigitText(frac);
    DigitsExamples();
    assert whole + frac == "29605";
    FloatOfDotted("2960.5", whole, frac);
  }

  lemma FloatOfLeadingDot()
    ensures Float(".5") == Some(0.5)
  {
    var whole, frac := "", "5";
    assert IsDigitText(whole) && IsDigitText(frac);
    DigitsExamples();
    assert whole + frac == "5";
    FloatOfDotted(".5", whole, frac);
  }

  /** `float()` on prices as they appear in signals, with and without decimals. */
  lemma FloatExamples()
    ensures Float("2960") == Some(2960.0)
    ensures Float("2960.5") == Some(2960.5)
    ensures Float(".5") == Some(0.5)
  {
    FloatOfWholePrice();
    FloatOfDecimalPrice();
    FloatOfLeadingDot();
  }

  /** `float()` rejects a bare dot and a second dot. */
  lemma FloatRejectsExamples()
    ensures Float(".") == None && Float("1.2.3") == None
  {
    assert "1.2.3"[1] == '.' && "1.2.3"[3] == '.';
  }

  /** An entry value drops its leading dots before `float()` reads the rest. */
  lemma EntryValueSkipsDots(t: string, n: nat)
    requires t != [] && IsNumberText(t)
    requires n <= |t| && (forall k :: 0 <= k < n ==> t[k] == '.') && (n == |t| || t[n] != '.')
    ensures EntryValue(t) == Float(t[n..])
  {
    EntryValueOfNumber(t);
    var r := LStripDots(t);
    assert |t| - |r| == n;
  }

  /** `.2960` is read as the price 2960, not as the fraction `float(".2960")` would give. */
  lemma EntryValueExamples()
    ensures EntryValue(".2960") == Some(2960.0)
  {
    var t := ".2960";
    assert IsNumberText(t);
    EntryValueSkipsDots(t, 1);
    assert t[1..] == "2960";
    FloatOfWholePrice();
  }

  /**
   * Skipping the values that raised keeps the others in order: there are no
   * more than values read, each comes from one of them, and when none raised
   * there is one per value.
   */
  lemma {:induction false} SomeValuesRead(vs: seq<Option<real>>)
    ensures |SomeValues(vs)| <= |vs|
    ensures forall x :: x in SomeValues(vs) ==> Some(x) in vs
    ensures (forall k :: 0 <= k < |vs| ==> vs[k].Some?) ==>
      |SomeValues(vs)| == |vs| && forall k :: 0 <= k < |vs| ==> SomeValues(vs)[k] == vs[k].value
    ensures (forall k :: 0 <= k < |vs| ==> vs[k].None?) ==> SomeValues(vs) == []
  {
    if vs != [] {
      var init := vs[..|vs| - 1];
      SomeValuesRead(init);
      assert forall k :: 0 <= k < |init| ==> init[k] == vs[k];
      assert forall x :: Some(x) in init ==> Some(x) in vs;
    }
  }

  /**
   * A signal is a market order exactly when its text contains `NOW` in any
   * case. A limit order's prices are the values of its `limit from` matches
   * that `float()` accepts, in order and never negative.
   */
  lemma ReadEntry(h: Match, text: string, sig: Signal)
    requires ReadSignal(h, text) == Parsed(sig)
    ensures sig.entry.MarketEntry? <==> Contains(Upper(sig.rawMessage), "NOW")
    ensures sig.entry.LimitEntries? ==> sig.entry.points == SomeValues(EntryValues(All(LimitFromPattern, sig.rawMessage)))
    ensures sig.entry.LimitEntries? ==> |sig.entry.points| <= |All(LimitFromPattern, sig.rawMessage)|
    ensures sig.entry.LimitEntries? ==> forall x :: x in sig.entry.points ==> x >= 0.0
  {
    ReadParts(h, text, sig);
    EntryPricesRead(All(LimitFromPattern, text));
  }

  /** The prices read from some `limit from` matches: no more than the matches, none negative. */
  lemma EntryPricesRead(ms: seq<Match>)
    ensures |SomeValues(EntryValues(ms))| <= |ms|
    ensures forall x :: x in SomeValues(EntryValues(ms)) ==> x >= 0.0
  {
    var vs := EntryValues(ms);
    SomeValuesRead(vs);
    forall k | 0 <= k < |vs| && vs[k].Some? ensures vs[k].value >= 0.0 {
      assert vs[k] == EntryValue(Group(ms[k], 0));
    }
    SomeValuesBounded(vs, 0.0);
  }

  /** Skipping values keeps a lower bound that all of them respect. */
  lemma {:induction false} SomeValuesBounded(vs: seq<Option<real>>, lo: real)
    requires forall k :: 0 <= k < |vs| && vs[k].Some? ==> vs[k].value >= lo
    ensures forall x :: x in SomeValues(vs) ==> x >= lo
  {
    if vs != [] {
      SomeValuesBounded(vs[..|vs| - 1], lo);
    }
  }

  /**
   * A second direction is set exactly for a limit signal whose text contains
   * `and ` and an `and BUY` or `and SELL`; it is BUY or SELL in some case.
   */
  lemma ReadSecondDirection(h: Match, text: string, sig: Signal)
    requires ReadSignal(h, text) == Parsed(sig)
    ensures sig.direction2.Some? <==>
      sig.entry.LimitEntries? && Contains(sig.rawMessage, "and ") && First(SecondDirectionPattern, sig.rawMessage).Some?
    ensures sig.direction2.Some? ==> LitAt(sig.direction2.value, 0, "buy") || LitAt(sig.direction2.value, 0, "sell")
  {
    ReadParts(h, text, sig);
    if sig.direction2.Some? {
      var m := First(SecondDirectionPattern, sig.rawMessage).value;
      SecondDirectionGroup(sig.rawMessage, m.start);
    }
  }

  /** The take-profit pairs of matches that all convert, in match order. */
  lemma TakeProfitPairsOrder(ms: seq<Match>, k: nat)
    requires TakeProfitPairs(ms).Some? && k < |ms|
    ensures |TakeProfitPairs(ms).value| == |ms|
    ensures TakeProfitPairs(ms).value[k] == TakeProfitPair(ms[k]).value
    ensures TakeProfitKey(ms[k]) == Some(TakeProfitPairs(ms).value[k].0)
    ensures Float(Group(ms[k], 1)) == Some(TakeProfitPairs(ms).value[k].1)
  {
  }

  /**
   * The take-profits dictionary: a key is present exactly when some
   * take-profit match has it, and it holds the value of the last such match.
   */
  lemma TakeProfitLookup(ms: seq<Match>, key: string)
    requires TakeProfitMap(ms).Some?
    ensures key in TakeProfitMap(ms).value <==> exists k :: 0 <= k < |ms| && TakeProfitKey(ms[k]) == Some(key)
    ensures key in TakeProfitMap(ms).value ==>
      exists k :: 0 <= k < |ms| && TakeProfitKey(ms[k]) == Some(key) && Float(Group(ms[k], 1)) == Some(TakeProfitMap(ms).value[key])
        && forall j :: k < j < |ms| ==> TakeProfitKey(ms[j]) != Some(key)
  {
    TakeProfitKeysMatch(ms, key);
    if key in TakeProfitMap(ms).value {
      var k := TakeProfitLast(ms, key);
    }
  }

  /** The pairs name `key` exactly where the matches do. */
  lemma TakeProfitKeysMatch(ms: seq<Match>, key: string)
    requires TakeProfitMap(ms).Some?
    ensures key in TakeProfitMap(ms).value <==> exists k :: 0 <= k < |ms| && TakeProfitKey(ms[k]) == Some(key)
  {
    var pairs := TakeProfitPairs(ms).value;
    BuildMapLookup(pairs, key);
    forall k | 0 <= k < |ms| ensures pairs[k].0 == key <==> TakeProfitKey(ms[k]) == Some(key) {
      TakeProfitPairsOrder(ms, k);
    }
  }

  /** The match whose value a take-profit key holds: the last one with that key. */
  lemma TakeProfitLast(ms: seq<Match>, key: string) returns (k: nat)
    requires TakeProfitMap(ms).Some? && key in TakeProfitMap(ms).value
    ensures k < |ms| && TakeProfitKey(ms[k]) == Some(key) && Float(Group(ms[k], 1)) == Some(TakeProfitMap(ms).value[key])
    ensures forall j :: k < j < |ms| ==> TakeProfitKey(ms[j]) != Some(key)
  {
    var pairs := TakeProfitPairs(ms).value;
    BuildMapLookup(pairs, key);
    k :| 0 <= k < |pairs| && pairs[k] == (key, BuildMap(pairs)[key]) && forall j :: k < j < |pairs| ==> pairs[j].0 != key;
    TakeProfitPairsOrder(ms, k);
    forall j | k < j < |ms| ensures TakeProfitKey(ms[j]) != Some(key) {
      TakeProfitPairsOrder(ms, j);
    }
  }

  /**
   * A parsed signal has a stop-loss exactly when its text has an `Sl @
   * <number>` match; the value is that of the first one, and not negative.
   */
  lemma ReadStopLoss(h: Match, text: string, sig: Signal)
    requires ReadSignal(h, text) == Parsed(sig)
    ensures sig.stopLoss.Some? <==> First(StopLossPattern, sig.rawMessage).Some?
    ensures sig.stopLoss.Some? ==>
      sig.stopLoss == Float(Group(First(StopLossPattern, sig.rawMessage).value, 0)) && sig.stopLoss.value >= 0.0
  {
    ReadParts(h, text, sig);
  }

  /**
   * Reading a signal raises exactly when a take-profit value or the
   * stop-loss value is no number: no digit, or two dots.
   */
  lemma ReadRaisedIff(h: Match, text: string)
    ensures ReadSignal(h, text) == Raised <==>
      || (exists k :: 0 <= k < |TakeProfitMatches(text)| && Float(Group(TakeProfitMatches(text)[k], 1)).None?)
      || StopLossOf(text).Unparsable?
  {
    var ms := TakeProfitMatches(text);
    forall k | 0 <= k < |ms| ensures TakeProfitPair(ms[k]).Some? <==> Float(Group(ms[k], 1)).Some? {
      TakeProfitPairOfMatch(text, ms[k].start);
    }
  }

  /** Parsing raises exactly when a header is found and reading the text after it raises. */
  lemma RaisedIff(msg: string, h: Match)
    requires First(HeaderPattern, msg) == Some(h)
    ensures ParseSignal(msg) == Raised <==>
      || (exists k :: 0 <= k < |TakeProfitMatches(SignalText(msg[h.start..]))|
            && Float(Group(TakeProfitMatches(SignalText(msg[h.start..]))[k], 1)).None?)
      || StopLossOf(SignalText(msg[h.start..])).Unparsable?
  {
    ReadRaisedIff(h, SignalText(msg[h.start..]));
  }

  /**
   * What is posted for a parsed signal is its cleaned text: the cleaned lines
   * of the section from the header on, each a clean line, which splitting the
   * posted text at line breaks gives back.
   */
  lemma PostedText(msg: string, sig: Signal)
    requires ParseSignal(msg) == Parsed(sig)
    ensures exists p :: 0 <= p <= |msg| && FormatForPosting(sig) == Join(SectionLines(msg[p..]), '\n')
              && (SectionLines(msg[p..]) != [] ==> Split(FormatForPosting(sig), '\n') == SectionLines(msg[p..]))
              && forall k :: 0 <= k < |SectionLines(msg[p..])| ==> IsCleanLine(SectionLines(msg[p..])[k])
  {
    var h := ParsedFrom(msg, sig);
    var lines := SectionLines(msg[h.start..]);
    SignalTextLines(msg[h.start..]);
    assert FormatForPosting(sig) == Join(lines, '\n');
    assert lines != [] ==> Split(FormatForPosting(sig), '\n') == lines;
    assert 0 <= h.start <= |msg|;
  }
}
