/** Matching cron expressions and their fields (`src/scripting/triggers.rs`). */
module Cron {
  import opened Wrappers

  const U32: nat := 0x1_0000_0000

  // ---- Text ----

  predicate IsDigit(c: char) {
    '0' <= c <= '9'
  }

  function DigitValue(c: char): nat
    requires IsDigit(c)
  {
    c as nat - '0' as nat
  }

  predicate AllDigits(s: string) {
    forall i | 0 <= i < |s| :: IsDigit(s[i])
  }

  function DigitsValue(s: string): nat
    requires AllDigits(s)
  {
    if s == "" then 0 else DigitsValue(s[..|s| - 1]) * 10 + DigitValue(s[|s| - 1])
  }

  /** Rust's `parse::<u32>`: an optional plus sign and at least one digit, below 2^32. */
  function ParseU32(s: string): Option<nat> {
    var digits := if s != "" && s[0] == '+' then s[1..] else s;
    if digits != "" && AllDigits(digits) && DigitsValue(digits) < U32
    then Some(DigitsValue(digits)) else None
  }

  function Split(s: string, sep: char): seq<string>
  {
    SplitFrom(s, sep, 0)
  }

  function SplitFrom(s: string, sep: char, i: nat): seq<string>
    requires i <= |s|
    decreases |s|, |s| - i
  {
    if i == |s| then [s]
    else if s[i] == sep then [s[..i]] + SplitFrom(s[i + 1..], sep, 0)
    else SplitFrom(s, sep, i + 1)
  }

  predicate IsSpace(c: char) {
    c == ' ' || ('\t' <= c <= '\r')
  }

  function Trim(s: string): string {
    if s != "" && IsSpace(s[0]) then Trim(s[1..])
    else if s != "" && IsSpace(s[|s| - 1]) then Trim(s[..|s| - 1])
    else s
  }

  predicate ParsesTo(s: string, value: nat) {
    ParseU32(s) == Some(value)
  }

  /** `start` may be after `end`: then the range wraps around. */
  predicate InRange(start: nat, end: nat, value: nat) {
    if start <= end then start <= value <= end else value >= start || value <= end
  }

  function MatchField(pattern: string, value: nat): bool {
    if pattern == "*" then true
    else if "*/" <= pattern && ParseU32(pattern[2..]).Some? then
      var n := ParseU32(pattern[2..]).value;
      n != 0 && value % n == 0
    else if ',' in pattern then
      exists part | part in Split(pattern, ',') :: ParsesTo(Trim(part), value)
    else
      var parts := Split(pattern, '-');
      if '-' in pattern && |parts| == 2 && ParseU32(parts[0]).Some? && ParseU32(parts[1]).Some?
      then InRange(ParseU32(parts[0]).value, ParseU32(parts[1]).value, value)
      else ParsesTo(pattern, value)
  }

  // ---- Syntax ----

  datatype Field =
    | Any
    | Every(n: nat)
    | OneOf(values: seq<nat>)
    | Range(start: nat, end: nat)
    | Exactly(n: nat)

  predicate Fits(f: Field) {
    match f
    case Any => true
    case Every(n) => n < U32
    case OneOf(values) => forall v | v in values :: v < U32
    case Range(start, end) => start < U32 && end < U32
    case Exactly(n) => n < U32
  }

  predicate Means(f: Field, value: nat) {
    match f
    case Any => true
    case Every(n) => n > 0 && value % n == 0
    case OneOf(values) => value in values
    case Range(start, end) => InRange(start, end, value)
    case Exactly(n) => value == n
  }

  function Digit(d: nat): char
    requires d < 10
  {
    '0' + d as char
  }

  function Decimal(n: nat): string {
    if n < 10 then [Digit(n)] else Decimal(n / 10) + [Digit(n % 10)]
  }

  function Commas(values: seq<nat>): string {
    if values == [] then ""
    else if |values| == 1 then Decimal(values[0])
    else Decimal(values[0]) + "," + Commas(values[1..])
  }

  function Text(f: Field): string {
    match f
    case Any => "*"
    case Every(n) => "*/" + Decimal(n)
    case OneOf(values) => Commas(values)
    case Range(start, end) => Decimal(start) + "-" + Decimal(end)
    case Exactly(n) => Decimal(n)
  }

  // ---- Reading back what was printed ----

  lemma {:induction false} DecimalReadsBack(n: nat)
    ensures Decimal(n) != "" && AllDigits(Decimal(n)) && DigitsValue(Decimal(n)) == n
  {
    var s := Decimal(n);
    if n >= 10 {
      DecimalReadsBack(n / 10);
      assert s[..|s| - 1] == Decimal(n / 10);
    } else {
      assert s[..0] == "";
    }
  }

  /** A number parses back from its text exactly if it has 32 bits. */
  lemma DecimalParses(n: nat)
    ensures ParseU32(Decimal(n)) == (if n < 0x1_0000_0000 then Some(n) else None) && Trim(Decimal(n)) == Decimal(n)
    ensures ',' !in Decimal(n) && '-' !in Decimal(n) && '*' !in Decimal(n)
  {
    DecimalReadsBack(n);
    var s := Decimal(n);
    assert IsDigit(s[0]) && IsDigit(s[|s| - 1]);
  }

  lemma {:induction false} SplitWithout(s: string, sep: char, i: nat)
    requires i <= |s| && sep !in s[i..]
    ensures SplitFrom(s, sep, i) == [s]
    decreases |s| - i
  {
    if i < |s| {
      assert s[i] in s[i..];
      assert forall c | c in s[i + 1..] :: c in s[i..];
      SplitWithout(s, sep, i + 1);
    }
  }

  lemma {:induction false} SplitAtFirst(a: string, sep: char, b: string, i: nat)
    requires i <= |a| && sep !in a
    ensures SplitFrom(a + [sep] + b, sep, i) == [a] + SplitFrom(b, sep, 0)
    decreases |a| - i
  {
    var s := a + [sep] + b;
    if i < |a| {
      assert s[i] == a[i] && a[i] in a;
      SplitAtFirst(a, sep, b, i + 1);
    } else {
      assert s[i] == sep && s[..i] == a && s[i + 1..] == b;
    }
  }

  lemma {:induction false} CommasSplit(values: seq<nat>)
    requires values != [] && forall v | v in values :: v < U32
    ensures |Split(Commas(values), ',')| == |values|
    ensures forall i | 0 <= i < |values| :: Split(Commas(values), ',')[i] == Decimal(values[i])
  {
    assert values[0] in values;
    DecimalParses(values[0]);
    var s := Commas(values);
    if |values| == 1 {
      assert s[0..] == s;
      SplitWithout(s, ',', 0);
    } else {
      var rest := values[1..];
      assert forall v | v in rest :: v in values;
      CommasSplit(rest);
      SplitAtFirst(Decimal(values[0]), ',', Commas(rest), 0);
      assert s == Decimal(values[0]) + [','] + Commas(rest);
    }
  }

  lemma ListIsList(values: seq<nat>)
    requires |values| >= 2 && forall v | v in values :: v < U32
    ensures var s := Commas(values); s != "*" && (|s| < 2 || s[..2] != "*/") && ',' in s
  {
    var s := Commas(values);
    assert values[0] in values;
    DecimalParses(values[0]);
    assert s[0] == Decimal(values[0])[0] && Decimal(values[0])[0] in Decimal(values[0]);
    assert s[|Decimal(values[0])|] == ',';
    assert |s| >= 2 ==> s[..2][0] == s[0];
  }

  lemma ListMatches(values: seq<nat>, value: nat)
    requires |values| >= 2 && forall v | v in values :: v < U32
    ensures MatchField(Commas(values), value) <==> value in values
  {
    ListIsList(values);
    CommasSplit(values);
    var parts := Split(Commas(values), ',');
    forall i | 0 <= i < |values| ensures ParseU32(Trim(parts[i])) == Some(values[i]) {
      assert values[i] in values;
      DecimalParses(values[i]);
    }
    if value in values {
      var i :| 0 <= i < |values| && values[i] == value;
      assert parts[i] in parts && ParsesTo(Trim(parts[i]), value);
    }
  }

  lemma RangeMatches(start: nat, end: nat, value: nat)
    requires start < U32 && end < U32
    ensures MatchField(Decimal(start) + "-" + Decimal(end), value) <==> InRange(start, end, value)
  {
    var a, b := Decimal(start), Decimal(end);
    var s := a + "-" + b;
    DecimalParses(start);
    DecimalParses(end);
    DecimalReadsBack(start);
    assert s[0] == a[0] && a[0] in a;
    assert s[|a|] == '-';
    SplitAtFirst(a, '-', b, 0);
    assert b[0..] == b;
    SplitWithout(b, '-', 0);
    assert s == a + ['-'] + b;
  }

  lemma NumberMatches(n: nat, value: nat)
    requires n < U32
    ensures MatchField(Decimal(n), value) <==> value == n
  {
    DecimalParses(n);
    DecimalReadsBack(n);
    var s := Decimal(n);
    assert s[0] in s;
  }

  /** Every field whose numbers fit matches, as text, exactly the values it means. */
  lemma MatchesWhatItMeans(f: Field, value: nat)
    requires Fits(f)
    ensures MatchField(Text(f), value) <==> Means(f, value)
  {
    match f
    case Any =>
    case Every(n) =>
      DecimalParses(n);
      DecimalReadsBack(n);
      assert Text(f)[2..] == Decimal(n);
      assert |Text(f)| > 1;
    case OneOf(values) =>
      if |values| >= 2 {
        ListMatches(values, value);
      } else if |values| == 1 {
        assert values[0] in values;
        NumberMatches(values[0], value);
      } else {
        assert Split("", '-') == [""];
      }
    case Range(start, end) => RangeMatches(start, end, value);
    case Exactly(n) => NumberMatches(n, value);
  }

  // ---- Ranges on a dial ----

  /** Below a modulus, a range is what one meets counting forward from its start to its end,
      past the top of the dial when it wraps around. */
  lemma RangeCountsForward(start: nat, end: nat, value: nat, modulus: nat)
    requires start < modulus && end < modulus && value < modulus
    ensures InRange(start, end, value)
      <==> exists k: nat :: k <= (end - start) % modulus && Forward(start, k, modulus) == value
  {
    var span := (end - start) % modulus;
    assert span == if start <= end then end - start else end - start + modulus by {
      Wrap(end - start, modulus);
    }
    if InRange(start, end, value) {
      var k := if start <= value then value - start else value - start + modulus;
      Wrap(start + k, modulus);
      assert Forward(start, k, modulus) == value;
    }
    forall k: nat | k <= span && Forward(start, k, modulus) == value ensures InRange(start, end, value) {
      Wrap(start + k, modulus);
    }
  }

  function Forward(start: nat, k: nat, modulus: nat): nat
    requires modulus > 0
  {
    (start + k) % modulus
  }

  lemma Wrap(a: int, m: nat)
    requires m > 0 && 0 <= a + m < 3 * m
    ensures a % m == if a < 0 then a + m else if a < m then a else a - m
  {
    if a < 0 {
      assert (a + m) / m == 0;
    }
  }

  // ---- Whole expressions ----

  /** The parts of the time an expression looks at; weekdays count from Sunday, which is zero. */
  datatype Moment = Moment(minute: nat, hour: nat, day: nat, month: nat, weekday: nat)

  function WordLength(s: string): (n: nat)
    ensures n <= |s|
  {
    if s == "" || IsSpace(s[0]) then 0 else 1 + WordLength(s[1..])
  }

  /** `split_whitespace`. */
  function Words(s: string): seq<string>
    decreases |s|
  {
    if s == "" then []
    else if IsSpace(s[0]) then Words(s[1..])
    else [s[..WordLength(s)]] + Words(s[WordLength(s)..])
  }

  /** Minute, hour, day, month and weekday; parts after the fifth do not matter. */
  predicate IsDue(cron: string, at: Moment) {
    var parts := Words(cron);
    && |parts| >= 5
    && MatchField(parts[0], at.minute) && MatchField(parts[1], at.hour) && MatchField(parts[2], at.day)
    && MatchField(parts[3], at.month) && MatchField(parts[4], at.weekday)
  }

  predicate IsWord(s: string) {
    s != "" && forall i | 0 <= i < |s| :: !IsSpace(s[i])
  }

  /** A field that is not an empty list. */
  predicate Printable(f: Field) {
    Fits(f) && f != OneOf([])
  }

  lemma DecimalIsWord(n: nat)
    ensures IsWord(Decimal(n))
  {
    DecimalReadsBack(n);
    forall i | 0 <= i < |Decimal(n)| ensures !IsSpace(Decimal(n)[i]) {
      assert IsDigit(Decimal(n)[i]);
    }
  }

  lemma WordsJoin(a: string, b: string)
    requires IsWord(a) && IsWord(b)
    ensures IsWord(a + b)
  {
  }

  lemma {:induction false} CommasAreWord(values: seq<nat>)
    requires values != []
    ensures IsWord(Commas(values))
  {
    DecimalIsWord(values[0]);
    if |values| > 1 {
      CommasAreWord(values[1..]);
      WordsJoin(Decimal(values[0]), ",");
      WordsJoin(Decimal(values[0]) + ",", Commas(values[1..]));
    }
  }

  lemma TextIsWord(f: Field)
    requires Printable(f)
    ensures IsWord(Text(f))
  {
    match f
    case Any =>
    case Every(n) =>
      DecimalIsWord(n);
      WordsJoin("*/", Decimal(n));
    case OneOf(values) => CommasAreWord(values);
    case Range(start, end) =>
      DecimalIsWord(start);
      DecimalIsWord(end);
      WordsJoin(Decimal(start), "-");
      WordsJoin(Decimal(start) + "-", Decimal(end));
    case Exactly(n) => DecimalIsWord(n);
  }

  lemma {:induction false} WordEnds(a: string, rest: string)
    requires forall i | 0 <= i < |a| :: !IsSpace(a[i])
    requires rest == "" || IsSpace(rest[0])
    ensures WordLength(a + rest) == |a|
    decreases |a|
  {
    if a == "" {
      assert a + rest == rest;
    } else {
      assert (a + rest)[1..] == a[1..] + rest;
      WordEnds(a[1..], rest);
    }
  }

  lemma FirstWord(a: string, rest: string)
    requires IsWord(a) && (rest == "" || IsSpace(rest[0]))
    ensures Words(a + rest) == [a] + Words(rest)
  {
    WordEnds(a, rest);
    assert (a + rest)[0] == a[0] && (a + rest)[..|a|] == a && (a + rest)[|a|..] == rest;
  }

  /** Space, tab, line feed, vertical tab, form feed and carriage return. */
  ghost predicate IsGap(gap: string) {
    forall c | c in gap :: c as int in {32, 9, 10, 11, 12, 13}
  }

  lemma {:induction false} GapIsSkipped(gap: string, rest: string)
    requires IsGap(gap)
    ensures Words(gap + rest) == Words(rest)
    decreases |gap|
  {
    if gap == "" {
      assert gap + rest == rest;
    } else {
      assert gap[0] in gap && forall c | c in gap[1..] :: c in gap;
      assert (gap + rest)[0] == gap[0] && (gap + rest)[1..] == gap[1..] + rest;
      GapIsSkipped(gap[1..], rest);
    }
  }

  function Join(word: string, gap: string, rest: string): string {
    word + (gap + rest)
  }

  lemma NextWord(word: string, gap: string, rest: string)
    requires IsWord(word) && gap != "" && IsGap(gap)
    ensures Words(Join(word, gap, rest)) == [word] + Words(rest)
  {
    assert gap[0] in gap && (gap + rest)[0] == gap[0];
    FirstWord(word, gap + rest);
    GapIsSkipped(gap, rest);
  }

  /** White space before the first of five words and between them, and what comes after the last. */
  datatype Gaps = Gaps(lead: string, first: string, second: string, third: string, fourth: string, tail: string)

  ghost predicate AreGaps(g: Gaps) {
    && IsGap(g.lead) && IsGap(g.first) && IsGap(g.second) && IsGap(g.third) && IsGap(g.fourth)
    && g.first != "" && g.second != "" && g.third != "" && g.fourth != ""
    && (g.tail == "" || g.tail[0] as int in {32, 9, 10, 11, 12, 13})
  }

  function Spaced(a: string, b: string, c: string, d: string, e: string, g: Gaps): string {
    g.lead + Join(a, g.first, Join(b, g.second, Join(c, g.third, Join(d, g.fourth, e + g.tail))))
  }

  lemma LastWords(c: string, d: string, e: string, g: Gaps)
    requires IsWord(c) && IsWord(d) && IsWord(e) && AreGaps(g)
    ensures Words(Join(c, g.third, Join(d, g.fourth, e + g.tail))) == [c, d, e] + Words(g.tail)
  {
    FirstWord(e, g.tail);
    NextWord(d, g.fourth, e + g.tail);
    NextWord(c, g.third, Join(d, g.fourth, e + g.tail));
  }

  lemma FiveWords(a: string, b: string, c: string, d: string, e: string, g: Gaps)
    requires IsWord(a) && IsWord(b) && IsWord(c) && IsWord(d) && IsWord(e) && AreGaps(g)
    ensures Words(Spaced(a, b, c, d, e, g)) == [a, b, c, d, e] + Words(g.tail)
  {
    LastWords(c, d, e, g);
    var rest := Join(c, g.third, Join(d, g.fourth, e + g.tail));
    NextWord(b, g.second, rest);
    NextWord(a, g.first, Join(b, g.second, rest));
    GapIsSkipped(g.lead, Join(a, g.first, Join(b, g.second, rest)));
  }

  function Expression(minute: Field, hour: Field, day: Field, month: Field, weekday: Field, g: Gaps): string {
    Spaced(Text(minute), Text(hour), Text(day), Text(month), Text(weekday), g)
  }

  /** An expression of five fields, apart by white space of any kind and length, is due at exactly the
      moments at which all of them mean it, whatever comes after them. */
  lemma ScheduleMeansItsFields(minute: Field, hour: Field, day: Field, month: Field, weekday: Field, g: Gaps,
                               at: Moment)
    requires Printable(minute) && Printable(hour) && Printable(day) && Printable(month) && Printable(weekday)
    requires AreGaps(g)
    ensures IsDue(Expression(minute, hour, day, month, weekday, g), at)
      <==> Means(minute, at.minute) && Means(hour, at.hour) && Means(day, at.day)
           && Means(month, at.month) && Means(weekday, at.weekday)
  {
    WordsOfExpression(minute, hour, day, month, weekday, g);
    MatchesWhatItMeans(minute, at.minute);
    MatchesWhatItMeans(hour, at.hour);
    MatchesWhatItMeans(day, at.day);
    MatchesWhatItMeans(month, at.month);
    MatchesWhatItMeans(weekday, at.weekday);
  }

  lemma WordsOfExpression(minute: Field, hour: Field, day: Field, month: Field, weekday: Field, g: Gaps)
    requires Printable(minute) && Printable(hour) && Printable(day) && Printable(month) && Printable(weekday)
    requires AreGaps(g)
    ensures Words(Expression(minute, hour, day, month, weekday, g))
            == [Text(minute), Text(hour), Text(day), Text(month), Text(weekday)] + Words(g.tail)
  {
    TextIsWord(minute);
    TextIsWord(hour);
    TextIsWord(day);
    TextIsWord(month);
    TextIsWord(weekday);
    FiveWords(Text(minute), Text(hour), Text(day), Text(month), Text(weekday), g);
  }
}
