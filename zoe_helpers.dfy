/**
 * Zoe's test helper `assertAmountsEqual`: it compares an amount with the
 * expected one, brand by identity and value by the amount math of the
 * given kind, reports the mismatch it finds to the test context `t` with
 * `fail`, and then always calls `pass`.  The recorder `FakeT` is the
 * test context the helper's own tests use: it keeps the last message each
 * of `fail` and `pass` received.
 */
module ZoeHelpers {
  import opened Wrappers

  /** A brand is compared by identity. */
  type Brand = nat

  /** An amount over values of type `V`; `V`'s equality is the strict
      equality `===` of the values (a reference value is its identity). */
  datatype Amount<V> = Amount(brand: Brand, value: V)

  /** The amount math kinds the helper compares by: `"nat"`, `"strSet"`
      and `"set"`, and `Other` for every other kind string. */
  datatype MathKind = Nat | StringSet | Set | Other(kind: OtherKind)

  /** A kind string the helper's `switch` has no case for. */
  type OtherKind = s: string | s != "nat" && s != "strSet" && s != "set" witness ""


  /** What the helper takes from outside: the equality of the string-set
      and set amount maths, and the formatting of values (`q`), of whole
      amounts (`q`) and of brands (string interpolation). */
  datatype Helpers<!V> = Helpers(
    strSetIsEqual: (V, V) -> bool,
    setIsEqual: (V, V) -> bool,
    quote: V -> string,
    quoteAmount: Amount<V> -> string,
    brandText: Brand -> string)

  const PASS_MESSAGE: string := "values are equal"

  /** `makeFakeT()`: a test context that remembers the last `fail` and the
      last `pass` message, both undefined at first. */
  class FakeT {
    var message: Option<string>
    var error: Option<string>

    constructor ()
      ensures message == None && error == None
    {
      message := None;
      error := None;
    }

    method Fail(msg: string)
      modifies this
      ensures error == Some(msg) && message == old(message)
    {
      error := Some(msg);
    }

    method Pass(msg: string)
      modifies this
      ensures message == Some(msg) && error == old(error)
    {
      message := Some(msg);
    }
  }

  /** Whether the values are equal under the math of `kind`; an unknown
      kind never finds them equal. */
  function ValuesEqual<V(==)>(kind: MathKind, a: V, b: V, env: Helpers<V>): bool {
    match kind
    case Nat => a == b
    case StringSet => env.strSetIsEqual(a, b)
    case Set => env.setIsEqual(a, b)
    case Other(_) => false
  }

  /** The label prefix: the label and a space, or nothing for an empty
      label. */
  function Prefix(lbl: string): (r: string)
    ensures lbl == "" ==> r == ""
    ensures lbl != "" ==> r == lbl + " "
  {
    if lbl == "" then "" else lbl + " "
  }

  function ValueMessage<V>(amount: Amount<V>, expected: Amount<V>, env: Helpers<V>): string {
    "value (" + env.quote(amount.value) + ") expected to equal " + env.quote(expected.value)
  }

  function BrandMessage<V>(amount: Amount<V>, expected: Amount<V>, env: Helpers<V>): string {
    "brand (" + env.brandText(amount.brand) + ") expected to equal " + env.brandText(expected.brand)
  }

  function NeitherMessage<V>(amount: Amount<V>, expected: Amount<V>, env: Helpers<V>): string {
    "Neither brand nor value matched: " + env.quoteAmount(amount) + ", " + env.quoteAmount(expected)
  }

  /** Which of the three messages the two comparisons select, if any. */
  function Mismatch<V(==)>(amount: Amount<V>, expected: Amount<V>, kind: MathKind, env: Helpers<V>): Option<string> {
    var brandsEqual := amount.brand == expected.brand;
    var valuesEqual := ValuesEqual(kind, amount.value, expected.value, env);
    if brandsEqual && !valuesEqual then Some(ValueMessage(amount, expected, env))
    else if !brandsEqual && valuesEqual then Some(BrandMessage(amount, expected, env))
    else if !brandsEqual && !valuesEqual then Some(NeitherMessage(amount, expected, env))
    else None
  }

  /** The message `fail` receives, if any: the selected one behind the
      label prefix. */
  function Complaint<V(==)>(amount: Amount<V>, expected: Amount<V>, kind: MathKind, lbl: string, env: Helpers<V>): Option<string> {
    match Mismatch(amount, expected, kind, env)
    case Some(m) => Some(Prefix(lbl) + m)
    case None => None
  }

  /** The defaults of the optional arguments: NAT, and the empty label. */
  function KindOrNat(mathKind: Option<MathKind>): MathKind {
    if mathKind.Some? then mathKind.value else Nat
  }

  function LabelOrEmpty(labelArg: Option<string>): string {
    if labelArg.Some? then labelArg.value else ""
  }

  /** `assertAmountsEqual(t, amount, expected, mathKind, label)`: `fail`
      with the complaint, if there is one, and then `pass` in any case. */
  method AssertAmountsEqual<V(==)>(t: FakeT, amount: Amount<V>, expected: Amount<V>,
                                   mathKind: Option<MathKind>, labelArg: Option<string>, env: Helpers<V>)
    modifies t
    ensures t.message == Some(PASS_MESSAGE)
    ensures t.error == match Complaint(amount, expected, KindOrNat(mathKind), LabelOrEmpty(labelArg), env)
                       case Some(m) => Some(m)
                       case None => old(t.error)
  {
    var kind, text := KindOrNat(mathKind), LabelOrEmpty(labelArg);
    var brandsEqual := amount.brand == expected.brand;
    var valuesEqual: bool;
    match kind {
      case Nat => valuesEqual := amount.value == expected.value;
      case StringSet => valuesEqual := env.strSetIsEqual(amount.value, expected.value);
      case Set => valuesEqual := env.setIsEqual(amount.value, expected.value);
      case Other(_) => valuesEqual := false;
    }
    var l := Prefix(text);
    if brandsEqual && !valuesEqual {
      t.Fail(l + ValueMessage(amount, expected, env));
    } else if !brandsEqual && valuesEqual {
      t.Fail(l + BrandMessage(amount, expected, env));
    } else if !brandsEqual && !valuesEqual {
      t.Fail(l + NeitherMessage(amount, expected, env));
    }
    t.Pass(PASS_MESSAGE);
  }

  /* ---------------- properties ---------------- */

  /** Nothing is reported exactly when brands and values both match, and
      each other outcome has its own message. */
  lemma ComplaintCases<V>(amount: Amount<V>, expected: Amount<V>, kind: MathKind, lbl: string, env: Helpers<V>)
    ensures var c := Complaint(amount, expected, kind, lbl, env);
      var brandsEqual, valuesEqual := amount.brand == expected.brand, ValuesEqual(kind, amount.value, expected.value, env);
      (c.None? <==> brandsEqual && valuesEqual) &&
      (brandsEqual && !valuesEqual ==> c.value == Prefix(lbl) + ValueMessage(amount, expected, env)) &&
      (!brandsEqual && valuesEqual ==> c.value == Prefix(lbl) + BrandMessage(amount, expected, env)) &&
      (!brandsEqual && !valuesEqual ==> c.value == Prefix(lbl) + NeitherMessage(amount, expected, env))
  {
  }

  /** NAT values are compared strictly; an unknown kind always complains,
      whatever the amounts. */
  lemma KindSemantics<V>(amount: Amount<V>, expected: Amount<V>, name: OtherKind, lbl: string, env: Helpers<V>)
    ensures ValuesEqual(Nat, amount.value, expected.value, env) <==> amount.value == expected.value
    ensures Complaint(amount, expected, Other(name), lbl, env).Some?
  {
  }

  /** An amount always equals itself under NAT, whatever the label. */
  lemma SelfEqual<V>(amount: Amount<V>, lbl: string, env: Helpers<V>)
    ensures Complaint(amount, amount, Nat, lbl, env).None?
  {
  }

  /** A non-empty label puts itself and a space in front of the message
      the unlabelled call reports; the empty label changes nothing. */
  lemma LabelPrefix<V>(amount: Amount<V>, expected: Amount<V>, kind: MathKind, lbl: string, env: Helpers<V>)
    ensures var c, u := Complaint(amount, expected, kind, lbl, env), Complaint(amount, expected, kind, "", env);
      c.Some? == u.Some? && (c.Some? ==> c.value == Prefix(lbl) + u.value)
  {
    match Mismatch(amount, expected, kind, env)
    case Some(m) => assert "" + m == m;
    case None =>
  }

  /* ---------------- the helper's own tests ---------------- */

  /** `moola(n)`: `n` units of the moola brand. */
  function Moola(brand: Brand, n: nat): Amount<nat> {
    Amount(brand, n)
  }

  /** The test context after one call on a fresh `FakeT`. */
  method RunOnFresh<V(==)>(amount: Amount<V>, expected: Amount<V>, mathKind: Option<MathKind>, env: Helpers<V>)
    returns (message: Option<string>, error: Option<string>)
    ensures message == Some(PASS_MESSAGE)
    ensures error == Complaint(amount, expected, KindOrNat(mathKind), "", env)
  {
    var t := new FakeT();
    AssertAmountsEqual(t, amount, expected, mathKind, None, env);
    message, error := t.message, t.error;
  }

  /** `moola(0)` against itself: `pass` and no `fail`. */
  lemma NatDup(moola: Brand, env: Helpers<nat>)
    ensures Complaint(Moola(moola, 0), Moola(moola, 0), Nat, "", env) == None
  {
  }

  /** `moola(0)` against `moola(1)`, with values quoted as decimals. */
  lemma FalseNat(moola: Brand, env: Helpers<nat>)
    requires env.quote(0) == "0" && env.quote(1) == "1"
    ensures Complaint(Moola(moola, 0), Moola(moola, 1), Nat, "", env) == Some("value (0) expected to equal 1")
  {
    var m := ValueMessage(Moola(moola, 0), Moola(moola, 1), env);
    assert m == "value (" + "0" + ") expected to equal " + "1";
    assert "" + m == "value (0) expected to equal 1";
  }

  /** Different brands, equal values: only the brand message, built from
      the two brands' texts (`[Alleged: moola brand]` and
      `[Alleged: bucks brand]` in the test). */
  lemma BrandMismatch(moola: Brand, bucks: Brand, env: Helpers<nat>)
    requires moola != bucks
    ensures Complaint(Moola(moola, 0), Moola(bucks, 0), Nat, "", env) ==
      Some("brand (" + env.brandText(moola) + ") expected to equal " + env.brandText(bucks))
  {
    assert "" + BrandMessage(Moola(moola, 0), Moola(bucks, 0), env) == BrandMessage(Moola(moola, 0), Moola(bucks, 0), env);
  }
}
