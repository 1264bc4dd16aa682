/** What scripts, triggers and block wires read (`src/scripting/context.rs`), and how a value read is
    compared (`src/scripting/engine.rs`, `src/scripting/triggers.rs`). */
module ScriptContext {
  import opened Wrappers
  import Cron

  /** A JSON value.  `RealV` is a number with a fraction part or exponent in its type, whatever its
      value. */
  datatype Value =
    | NullV
    | BoolV(b: bool)
    | IntV(i: int)
    | RealV(r: real)
    | TextV(t: string)
    | ListV(items: seq<Value>)
    | ObjectV(fields: map<string, Value>)

  /** `ambient` is what the sources of the kinds `time` and `system` read. */
  datatype Context = Context(
    sensors: map<string, real>, gpio: map<nat, bool>, variables: map<string, Value>,
    ambient: map<(string, string), Value>)

  const NOTHING := Context(map[], map[], map[], map[])

  function SetVariable(ctx: Context, name: string, v: Value): Context {
    ctx.(variables := ctx.variables[name := v])
  }

  function SetSensor(ctx: Context, name: string, r: real): Context {
    ctx.(sensors := ctx.sensors[name := r])
  }

  // ---- Sources ----

  function ReadSensor(ctx: Context, name: string): Option<Value> {
    if name in ctx.sensors then Some(RealV(ctx.sensors[name])) else None
  }

  function ReadGpio(ctx: Context, pin: string): Option<Value> {
    var n := Cron.ParseU32(pin);
    if n.Some? && n.value < 0x100 && n.value in ctx.gpio then Some(BoolV(ctx.gpio[n.value])) else None
  }

  function ReadVariable(ctx: Context, name: string): Option<Value> {
    if name in ctx.variables then Some(ctx.variables[name]) else None
  }

  function ReadAmbient(ctx: Context, kind: string, name: string): Option<Value> {
    if (kind, name) in ctx.ambient then Some(ctx.ambient[(kind, name)]) else None
  }

  /** A name alone is a sensor; otherwise the part before the first colon is the kind, and the name
      ends at the next. */
  function GetValue(ctx: Context, source: string): Option<Value> {
    var parts := Cron.Split(source, ':');
    if |parts| < 2 then ReadSensor(ctx, source) else ReadKind(ctx, parts[0], parts[1])
  }

  function ReadKind(ctx: Context, kind: string, name: string): Option<Value> {
    if kind in {"sensor", "register"} then ReadSensor(ctx, name)
    else if kind in {"gpio", "pin"} then ReadGpio(ctx, name)
    else if kind in {"var", "variable"} then ReadVariable(ctx, name)
    else if kind in {"time", "system", "sys"} then ReadAmbient(ctx, kind, name)
    else None
  }

  lemma {:induction false} PartsAreWhole(s: string, sep: char, i: nat)
    requires i <= |s| && sep !in s[..i]
    ensures forall part | part in Cron.SplitFrom(s, sep, i) :: sep !in part
    decreases |s|, |s| - i
  {
    if i < |s| && s[i] == sep {
      PartsAreWhole(s[i + 1..], sep, 0);
    } else if i < |s| {
      assert s[..i + 1] == s[..i] + [s[i]];
      PartsAreWhole(s, sep, i + 1);
    } else {
      assert s[..i] == s;
    }
  }

  /** A variable with a colon in its name can be set, but no source reads it. */
  lemma {:induction false} ColonIsUnread(ctx: Context, name: string, v: Value, source: string)
    requires ':' in name
    ensures GetValue(SetVariable(ctx, name, v), source) == GetValue(ctx, source)
  {
    PartsAreWhole(source, ':', 0);
    var parts := Cron.Split(source, ':');
    if |parts| >= 2 {
      assert parts[1] in parts;
      OtherVariableStays(ctx, name, v, parts[0], parts[1]);
    }
  }

  lemma OtherVariableStays(ctx: Context, name: string, v: Value, kind: string, other: string)
    requires other != name
    ensures ReadKind(SetVariable(ctx, name, v), kind, other) == ReadKind(ctx, kind, other)
  {
  }

  lemma KindAndName(kind: string, name: string)
    requires ':' !in kind && ':' !in name
    ensures Cron.Split(kind + ":" + name, ':') == [kind, name]
  {
    Cron.SplitAtFirst(kind, ':', name, 0);
    Cron.SplitWithout(name, ':', 0);
    assert kind + ":" + name == kind + [':'] + name;
  }

  /** Every other variable can be read. */
  lemma {:induction false} VariableIsRead(ctx: Context, name: string)
    requires ':' !in name
    ensures GetValue(ctx, "var:" + name) == GetValue(ctx, "variable:" + name)
            == if name in ctx.variables then Some(ctx.variables[name]) else None
  {
    assert "var" + ":" == "var:";
    KindAndName("var", name);
    assert "variable" + ":" == "variable:";
    KindAndName("variable", name);
  }

  /** A sensor is read by its name, with its kind before it or alone. */
  lemma {:induction false} SensorIsRead(ctx: Context, name: string)
    requires ':' !in name
    ensures GetValue(ctx, name) == GetValue(ctx, "sensor:" + name) == GetValue(ctx, "register:" + name)
            == if name in ctx.sensors then Some(RealV(ctx.sensors[name])) else None
  {
    Cron.SplitWithout(name, ':', 0);
    assert |Cron.Split(name, ':')| == 1;
    assert "sensor" + ":" == "sensor:";
    KindAndName("sensor", name);
    assert "register" + ":" == "register:";
    KindAndName("register", name);
  }

  /** A pin is read by its number, which has eight bits. */
  lemma {:induction false} PinIsRead(ctx: Context, pin: nat)
    ensures GetValue(ctx, "gpio:" + Cron.Decimal(pin)) == GetValue(ctx, "pin:" + Cron.Decimal(pin))
            == if pin < 256 && pin in ctx.gpio then Some(BoolV(ctx.gpio[pin])) else None
  {
    Cron.DecimalReadsBack(pin);
    assert forall i | 0 <= i < |Cron.Decimal(pin)| :: Cron.IsDigit(Cron.Decimal(pin)[i]);
    assert "gpio" + ":" == "gpio:";
    KindAndName("gpio", Cron.Decimal(pin));
    assert "pin" + ":" == "pin:";
    KindAndName("pin", Cron.Decimal(pin));
  }

  /** A source of any other kind reads nothing but what surrounds the agent. */
  lemma {:induction false} OtherKindsRead(ctx: Context, kind: string, name: string)
    requires ':' !in kind && ':' !in name
    requires kind !in {"sensor", "register", "gpio", "pin", "var", "variable"}
    ensures GetValue(ctx, kind + ":" + name)
            == if kind in {"time", "system", "sys"} && (kind, name) in ctx.ambient then Some(ctx.ambient[(kind, name)])
               else None
  {
    KindAndName(kind, name);
  }

  // ---- Comparisons ----

  datatype Comparison = Eq | Ne | Gt | Gte | Lt | Lte | Contains | Between | AnyOf

  /** The distance from one to the next number in double precision. */
  const EPSILON: real := 1.0 / 4503599627370496.0

  function AsReal(v: Value): Option<real> {
    match v
    case IntV(i) => Some(i as real)
    case RealV(r) => Some(r)
    case _ => None
  }

  predicate Near(l: real, r: real) {
    (if l >= r then l - r else r - l) < EPSILON
  }

  /** The operator on two numbers.  What is a list in `whole` is looked at by `between` and `in`. */
  function CompareNumbers(op: Comparison, l: real, r: real, whole: Value): bool {
    match op
    case Eq => Near(l, r)
    case Ne => !Near(l, r)
    case Gt => l > r
    case Gte => l >= r
    case Lt => l < r
    case Lte => l <= r
    case Between =>
      whole.ListV? && |whole.items| >= 2
      && (AsReal(whole.items[0]).Some? ==> l >= AsReal(whole.items[0]).value)
      && (AsReal(whole.items[1]).Some? ==> l <= AsReal(whole.items[1]).value)
    case AnyOf =>
      whole.ListV?
      && exists i | 0 <= i < |whole.items| ::
           AsReal(whole.items[i]).Some? && Near(l, AsReal(whole.items[i]).value)
    case Contains => false
  }

  /** The order of strings, by their first difference. */
  predicate TextLess(l: string, r: string) {
    r != "" && (l == "" || l[0] < r[0] || (l[0] == r[0] && TextLess(l[1..], r[1..])))
  }

  predicate ContainsText(l: string, r: string) {
    r <= l || (l != "" && ContainsText(l[1..], r))
  }

  function CompareBools(op: Comparison, l: bool, r: bool): bool {
    match op
    case Eq => l == r
    case Ne => l != r
    case _ => false
  }

  /** How a condition of a script or of an action compares.  Numbers know no `in`, and strings no
      order. */
  function ConditionMet(op: Comparison, l: Value, r: Value): bool {
    if AsReal(l).Some? && AsReal(r).Some? then
      op != AnyOf && CompareNumbers(op, AsReal(l).value, AsReal(r).value, r)
    else if l.BoolV? && r.BoolV? then CompareBools(op, l.b, r.b)
    else if l.TextV? && r.TextV? then
      match op
      case Eq => l.t == r.t
      case Ne => l.t != r.t
      case Contains => ContainsText(l.t, r.t)
      case _ => false
    else false
  }

  /** How a threshold trigger compares. */
  function ThresholdMet(op: Comparison, l: Value, r: Value): bool {
    if AsReal(l).Some? && AsReal(r).Some? then
      CompareNumbers(op, AsReal(l).value, AsReal(r).value, r)
    else if l.TextV? && r.TextV? then
      match op
      case Eq => l.t == r.t
      case Ne => l.t != r.t
      case Contains => ContainsText(l.t, r.t)
      case Gt => TextLess(r.t, l.t)
      case Gte => l.t == r.t || TextLess(r.t, l.t)
      case Lt => TextLess(l.t, r.t)
      case Lte => l.t == r.t || TextLess(l.t, r.t)
      case _ => false
    else if l.BoolV? && r.BoolV? then CompareBools(op, l.b, r.b)
    else false
  }

  ghost predicate BothNumbers(l: Value, r: Value) {
    AsReal(l).Some? && AsReal(r).Some?
  }

  ghost predicate BothTexts(l: Value, r: Value) {
    l.TextV? && r.TextV?
  }

  ghost predicate OfOneKind(l: Value, r: Value) {
    BothNumbers(l, r) || BothTexts(l, r) || (l.BoolV? && r.BoolV?)
  }

  /** The two operators whose right side is a list never hold, since a list is no number. */
  lemma ListOperatorsNeverHold(op: Comparison, l: Value, r: Value)
    requires op in {Between, AnyOf}
    ensures !ConditionMet(op, l, r) && !ThresholdMet(op, l, r)
  {
  }

  lemma {:induction false} TextOrderIsTotal(l: string, r: string)
    ensures TextLess(l, r) <==> l != r && !TextLess(r, l)
  {
    if l != "" && r != "" && l[0] == r[0] {
      TextOrderIsTotal(l[1..], r[1..]);
      assert l == [l[0]] + l[1..] && r == [r[0]] + r[1..];
    }
  }

  /** "Not equal" is the denial of "equal" exactly for two values of one kind: for any others
      neither holds. */
  lemma NeDeniesEqExactly(l: Value, r: Value)
    ensures (ConditionMet(Ne, l, r) <==> !ConditionMet(Eq, l, r)) <==> OfOneKind(l, r)
    ensures (ThresholdMet(Ne, l, r) <==> !ThresholdMet(Eq, l, r)) <==> OfOneKind(l, r)
  {
  }

  /** "At most" is the denial of "more than" exactly for two numbers, in a trigger also for two
      strings, and so is "at least" of "less than". */
  lemma LteDeniesGtExactly(l: Value, r: Value)
    ensures (ConditionMet(Lte, l, r) <==> !ConditionMet(Gt, l, r)) <==> BothNumbers(l, r)
    ensures (ThresholdMet(Lte, l, r) <==> !ThresholdMet(Gt, l, r)) <==> BothNumbers(l, r) || BothTexts(l, r)
    ensures (ConditionMet(Gte, l, r) <==> !ConditionMet(Lt, l, r)) <==> BothNumbers(l, r)
    ensures (ThresholdMet(Gte, l, r) <==> !ThresholdMet(Lt, l, r)) <==> BothNumbers(l, r) || BothTexts(l, r)
  {
    if BothTexts(l, r) {
      TextOrderIsTotal(l.t, r.t);
    }
  }

  /** A condition and a threshold trigger with one operator and one value agree exactly unless it is
      an order of strings that holds. */
  lemma ComparisonsAgreeExactly(op: Comparison, l: Value, r: Value)
    ensures ConditionMet(op, l, r) == ThresholdMet(op, l, r)
            <==> !(BothTexts(l, r) && op in {Gt, Gte, Lt, Lte} && ThresholdMet(op, l, r))
  {
  }

  // ---- What the operators mean ----

  /** On integers the operators are what they are called, the tolerance of `eq` notwithstanding. */
  lemma IntegersCompare(op: Comparison, i: int, j: int)
    ensures ConditionMet(op, IntV(i), IntV(j)) == ThresholdMet(op, IntV(i), IntV(j))
    ensures ConditionMet(op, IntV(i), IntV(j)) <==>
      match op
      case Eq => i == j
      case Ne => i != j
      case Gt => i > j
      case Gte => i >= j
      case Lt => i < j
      case Lte => i <= j
      case _ => false
  {
    if i != j {
      assert (i as real) - (j as real) >= 1.0 || (j as real) - (i as real) >= 1.0;
    }
  }

  /** An integer is the number without a fraction. */
  lemma IntegersAreNumbers(op: Comparison, i: int, v: Value)
    ensures ConditionMet(op, IntV(i), v) == ConditionMet(op, RealV(i as real), v)
    ensures ConditionMet(op, v, IntV(i)) == ConditionMet(op, v, RealV(i as real))
    ensures ThresholdMet(op, IntV(i), v) == ThresholdMet(op, RealV(i as real), v)
    ensures ThresholdMet(op, v, IntV(i)) == ThresholdMet(op, v, RealV(i as real))
  {
  }

  /** Numbers: the orders are those of the numbers, and `eq` holds within the tolerance, so that one of
      "less", "equal" and "more" holds always, and no two of them for numbers apart. */
  lemma NumbersCompare(x: real, y: real)
    ensures var l, r := RealV(x), RealV(y);
      && (ConditionMet(Gt, l, r) <==> x > y) && (ConditionMet(Lt, l, r) <==> ConditionMet(Gt, r, l))
      && (ConditionMet(Gte, l, r) <==> !ConditionMet(Lt, l, r))
      && (ConditionMet(Lte, l, r) <==> !ConditionMet(Gt, l, r))
      && (ConditionMet(Eq, l, r) <==> x - EPSILON < y < x + EPSILON)
      && (forall op :: ConditionMet(op, l, r) == ThresholdMet(op, l, r))
  {
  }

  /** Truth values and strings are equal only to themselves. */
  lemma EqualsAreTheSame(l: Value, r: Value)
    requires (l.BoolV? && r.BoolV?) || BothTexts(l, r)
    ensures ConditionMet(Eq, l, r) == ThresholdMet(Eq, l, r) == (l == r)
  {
  }

  /** A trigger orders strings: "more" is "less" the other way round. */
  lemma TextsCompare(l: string, r: string)
    ensures ThresholdMet(Lt, TextV(l), TextV(r)) <==> TextLess(l, r)
    ensures ThresholdMet(Gt, TextV(l), TextV(r)) <==> ThresholdMet(Lt, TextV(r), TextV(l))
    ensures ConditionMet(Contains, TextV(l), TextV(r)) == ThresholdMet(Contains, TextV(l), TextV(r))
            == ContainsText(l, r)
  {
  }

  lemma {:induction false} ContainsExactly(l: string, r: string)
    ensures ContainsText(l, r) <==> exists i {:trigger l[i..]} | 0 <= i <= |l| :: r <= l[i..]
  {
    assert l[0..] == l;
    if !(r <= l) && l != "" {
      ContainsExactly(l[1..], r);
      if i :| 0 <= i <= |l[1..]| && r <= l[1..][i..] {
        assert l[1..][i..] == l[i + 1..];
      }
      if i :| 0 < i <= |l| && r <= l[i..] {
        assert l[1..][i - 1..] == l[i..];
      }
    }
  }

  /** The first `k` characters are the same, and then the one string ends, or has the lesser one. */
  ghost predicate DifferAt(l: string, r: string, k: nat) {
    && k <= |l| && k < |r| && l[..k] == r[..k]
    && (k == |l| || l[k] < r[k])
  }

  /** Strings are ordered by their first difference. */
  lemma {:induction false} TextLessExactly(l: string, r: string)
    ensures TextLess(l, r) <==> exists k: nat :: DifferAt(l, r, k)
  {
    if r != "" && (l == "" || l[0] < r[0]) {
      assert DifferAt(l, r, 0);
    } else if r != "" && l[0] == r[0] {
      TextLessExactly(l[1..], r[1..]);
      if k: nat :| DifferAt(l[1..], r[1..], k) {
        assert l[..k + 1] == [l[0]] + l[1..][..k] && r[..k + 1] == [r[0]] + r[1..][..k];
        assert DifferAt(l, r, k + 1);
      }
      if k: nat :| DifferAt(l, r, k) {
        assert k > 0;
        assert l[1..][..k - 1] == l[..k][1..] && r[1..][..k - 1] == r[..k][1..];
        assert DifferAt(l[1..], r[1..], k - 1);
      }
    }
  }
}
