/**
 * WorldAnvil dice notation: `/\b(\d+d\d+(?:[+-]\d+)?)\b/g` becomes
 * `[dice]$1[/dice]`, and only when the format is worldanvil.
 */
module Dice {
  import opened Wrappers
  import opened Text
  import opened Scanner
  import opened Dialect

  /** The character before the text is a word character, so `\b` cannot hold before a digit. */
  predicate WordBefore(prev: Option<char>) {
    prev.Some? && IsWordChar(prev.value)
  }

  /** `\b` at position `k`, just after a digit. */
  predicate BoundaryAt(t: string, k: nat)
    requires k <= |t|
  {
    k == |t| || !IsWordChar(t[k])
  }

  predicate IsSign(c: char) {
    c == '+' || c == '-'
  }

  /** Length of a `[+-]\d+` modifier at position `e`, or 0 when there is none. */
  function ModifierLen(t: string, e: nat): (m: nat)
    requires e <= |t|
    ensures e + m <= |t|
  {
    if e < |t| && IsSign(t[e]) && DigitRun(t[e + 1..]) > 0 then 1 + DigitRun(t[e + 1..]) else 0
  }

  /**
   * Length of the dice notation at the start of `t`. Both digit runs are
   * greedy and giving digits back never helps, since a `d` or a boundary must
   * follow them; the modifier is taken when a boundary follows it, and left
   * out otherwise, in which case the boundary falls on its sign.
   */
  function DiceLen(prev: Option<char>, t: string): (r: Option<nat>)
    ensures r.Some? ==> 0 < r.value <= |t|
  {
    if WordBefore(prev) then None else FromCount(t, DigitRun(t))
  }

  function FromCount(t: string, a: nat): (r: Option<nat>)
    requires a <= |t|
    ensures r.Some? ==> a < r.value <= |t|
  {
    if a == 0 || a == |t| || t[a] != 'd' then None else FromSides(t, a + 1, DigitRun(t[a + 1..]))
  }

  function FromSides(t: string, s: nat, b: nat): (r: Option<nat>)
    requires s + b <= |t|
    ensures r.Some? ==> s < r.value <= |t|
  {
    if b == 0 then None else WithModifier(t, s + b, ModifierLen(t, s + b))
  }

  function WithModifier(t: string, e: nat, m: nat): (r: Option<nat>)
    requires e + m <= |t|
    ensures r.Some? ==> e <= r.value <= |t|
  {
    if m > 0 && BoundaryAt(t, e + m) then Some(e + m)
    else if BoundaryAt(t, e) then Some(e)
    else None
  }

  function DiceMatcher(): Matcher {
    (prev: Option<char>, t: string) =>
      match DiceLen(prev, t)
      case Some(k) => Some(Match(k, "[dice]" + t[..k] + "[/dice]"))
      case None => None
  }

  /** `WorldAnvilDiceConversionStrategy.convert`. */
  function Dice(s: string, fmt: Format): (r: string)
    ensures fmt != WorldAnvil ==> r == s
  {
    if fmt == WorldAnvil then Replace(s, DiceMatcher()) else s
  }

  predicate AllDigits(s: string) {
    forall i :: 0 <= i < |s| ==> IsDigit(s[i])
  }

  /** A modifier as written: nothing, or a sign and one or more digits. */
  predicate IsModifier(mod: string) {
    mod == [] || (IsSign(mod[0]) && |mod| >= 2 && AllDigits(mod[1..]))
  }

  /** How dice notation is written: count, `d`, sides and an optional modifier. */
  function DiceForm(count: string, sides: string, mod: string): string {
    count + "d" + sides + mod
  }

  predicate DiceParts(count: string, sides: string, mod: string) {
    count != [] && AllDigits(count) && sides != [] && AllDigits(sides) && IsModifier(mod)
  }

  /** What may follow the notation: a boundary, and no modifier the notation left out. */
  predicate Follows(mod: string, rest: string) {
    (rest == [] || !IsWordChar(rest[0])) && (mod == [] ==> !(|rest| >= 2 && IsSign(rest[0]) && IsDigit(rest[1])))
  }

  lemma {:induction false} DigitRunOf(ds: string, rest: string)
    requires AllDigits(ds) && (rest == [] || !IsDigit(rest[0]))
    ensures DigitRun(ds + rest) == |ds|
    decreases |ds|
  {
    if ds != [] {
      assert (ds + rest)[1..] == ds[1..] + rest;
      DigitRunOf(ds[1..], rest);
    } else {
      assert ds + rest == rest;
    }
  }

  /** Written dice notation after a non-word character and before a boundary is matched in full. */
  lemma DiceOf(prev: Option<char>, count: string, sides: string, mod: string, rest: string)
    requires !WordBefore(prev) && DiceParts(count, sides, mod) && Follows(mod, rest)
    ensures DiceLen(prev, DiceForm(count, sides, mod) + rest) == Some(|DiceForm(count, sides, mod)|)
  {
    DiceSlices(count, sides, mod, rest);
    DiceAt(prev, DiceForm(count, sides, mod) + rest, |count|, |sides|, mod, rest);
  }

  lemma DiceSlices(count: string, sides: string, mod: string, rest: string)
    requires DiceParts(count, sides, mod)
    ensures var t, a, b := DiceForm(count, sides, mod) + rest, |count|, |sides|;
      a + 1 + b <= |t| && AllDigits(t[..a]) && t[a] == 'd' && AllDigits(t[a + 1..a + 1 + b]) && t[a + 1 + b..] == mod + rest
  {
    var t, a, b := DiceForm(count, sides, mod) + rest, |count|, |sides|;
    assert t == count + "d" + sides + (mod + rest);
    assert t[..a] == count;
    assert t[a + 1..a + 1 + b] == sides;
  }

  /** The same, read off the positions of the text. */
  lemma DiceAt(prev: Option<char>, t: string, a: nat, b: nat, mod: string, rest: string)
    requires !WordBefore(prev) && 0 < a && 0 < b && a + 1 + b <= |t|
    requires AllDigits(t[..a]) && t[a] == 'd' && AllDigits(t[a + 1..a + 1 + b])
    requires t[a + 1 + b..] == mod + rest && IsModifier(mod) && Follows(mod, rest)
    ensures DiceLen(prev, t) == Some(a + 1 + b + |mod|)
  {
    CountRun(t, a);
    SidesRun(t, a, b, mod, rest);
    ModifierOf(t, a + 1 + b, mod, rest);
    DiceLenIs(prev, t, a, b, |mod|);
  }

  lemma CountRun(t: string, a: nat)
    requires a < |t| && AllDigits(t[..a]) && t[a] == 'd'
    ensures DigitRun(t) == a
  {
    forall i | 0 <= i < a ensures IsDigit(t[i]) {
      assert t[i] == t[..a][i];
    }
    DigitRunAt(t, a);
  }

  lemma SidesRun(t: string, a: nat, b: nat, mod: string, rest: string)
    requires a + 1 + b <= |t| && AllDigits(t[a + 1..a + 1 + b]) && t[a + 1 + b..] == mod + rest
    requires IsModifier(mod) && Follows(mod, rest)
    ensures DigitRun(t[a + 1..]) == b
  {
    var u := t[a + 1..];
    forall i | 0 <= i < b ensures IsDigit(u[i]) {
      assert u[i] == t[a + 1..a + 1 + b][i];
    }
    if b < |u| {
      assert u[b] == t[a + 1 + b] == (mod + rest)[0];
    }
    DigitRunAt(u, b);
  }

  lemma {:induction false} DigitRunAt(s: string, n: nat)
    requires n <= |s| && (forall i :: 0 <= i < n ==> IsDigit(s[i])) && (n < |s| ==> !IsDigit(s[n]))
    ensures DigitRun(s) == n
    decreases n
  {
    if n > 0 {
      DigitRunAt(s[1..], n - 1);
    }
  }

  /** `DiceLen` once its runs are known and a boundary follows the notation. */
  lemma DiceLenIs(prev: Option<char>, t: string, a: nat, b: nat, m: nat)
    requires !WordBefore(prev) && DigitRun(t) == a && 0 < a < |t| && t[a] == 'd'
    requires DigitRun(t[a + 1..]) == b && b > 0 && a + 1 + b + m <= |t| && ModifierLen(t, a + 1 + b) == m
    requires BoundaryAt(t, a + 1 + b + m)
    ensures DiceLen(prev, t) == Some(a + 1 + b + m)
  {
    FromCountIs(t, a, b, m);
  }

  lemma FromCountIs(t: string, a: nat, b: nat, m: nat)
    requires 0 < a < |t| && t[a] == 'd' && DigitRun(t[a + 1..]) == b && b > 0 && a + 1 + b + m <= |t|
    requires ModifierLen(t, a + 1 + b) == m && BoundaryAt(t, a + 1 + b + m)
    ensures FromCount(t, a) == Some(a + 1 + b + m)
  {
    FromSidesIs(t, a + 1, b, m);
  }

  lemma FromSidesIs(t: string, s: nat, b: nat, m: nat)
    requires s + b + m <= |t| && b > 0 && ModifierLen(t, s + b) == m && BoundaryAt(t, s + b + m)
    ensures FromSides(t, s, b) == Some(s + b + m)
  {
    WithModifierIs(t, s + b, m);
  }

  lemma WithModifierIs(t: string, e: nat, m: nat)
    requires e + m <= |t| && BoundaryAt(t, e + m)
    ensures WithModifier(t, e, m) == Some(e + m)
  {
  }

  /** The modifier part, once the count and the sides are read. */
  lemma ModifierOf(t: string, e: nat, mod: string, rest: string)
    requires e <= |t| && t[e..] == mod + rest && IsModifier(mod) && Follows(mod, rest)
    ensures ModifierLen(t, e) == |mod|
    ensures BoundaryAt(t, e + |mod|)
  {
    if mod != [] {
      assert t[e] == mod[0];
      assert t[e + 1..] == mod[1..] + rest;
      DigitRunOf(mod[1..], rest);
      assert t[e + |mod|..] == rest;
    } else {
      assert t[e..] == rest;
      if e < |t| {
        assert t[e + 1..] == rest[1..];
      }
    }
  }

  /** Conversely, every match is dice notation after a non-word character and before a boundary. */
  lemma DiceShape(prev: Option<char>, t: string)
    requires DiceLen(prev, t).Some?
    ensures var k := DiceLen(prev, t).value;
      !WordBefore(prev) && BoundaryAt(t, k)
      && exists count, sides, mod :: DiceParts(count, sides, mod) && t[..k] == DiceForm(count, sides, mod)
  {
    var a := DigitRun(t);
    var k := DiceLen(prev, t).value;
    assert !WordBefore(prev) && FromCount(t, a) == Some(k);
    var b, m := FromCountInv(t, a, k);
    var count, sides, mod := ShapeOf(t, a, b, m);
  }

  /** What `FromCount` found: the `d`, the sides' run and a modifier taken or not. */
  lemma FromCountInv(t: string, a: nat, k: nat) returns (b: nat, m: nat)
    requires a <= |t| && FromCount(t, a) == Some(k)
    ensures 0 < a < |t| && t[a] == 'd' && b > 0 && DigitRun(t[a + 1..]) == b
    ensures k == a + 1 + b + m && k <= |t| && BoundaryAt(t, k)
    ensures m == 0 || ModifierLen(t, a + 1 + b) == m
  {
    b := DigitRun(t[a + 1..]);
    assert 0 < a < |t| && t[a] == 'd' && FromSides(t, a + 1, b) == Some(k);
    m := WithModifierInv(t, a + 1 + b, k);
  }

  lemma WithModifierInv(t: string, e: nat, k: nat) returns (m: nat)
    requires e <= |t| && WithModifier(t, e, ModifierLen(t, e)) == Some(k)
    ensures k == e + m && k <= |t| && BoundaryAt(t, k) && (m == 0 || ModifierLen(t, e) == m)
  {
    m := k - e;
  }

  lemma ShapeOf(t: string, a: nat, b: nat, m: nat) returns (count: string, sides: string, mod: string)
    requires 0 < a < |t| && t[a] == 'd' && DigitRun(t) == a && b > 0 && DigitRun(t[a + 1..]) == b
    requires a + 1 + b + m <= |t| && (m == 0 || ModifierLen(t, a + 1 + b) == m)
    ensures DiceParts(count, sides, mod) && t[..a + 1 + b + m] == DiceForm(count, sides, mod)
  {
    var e := a + 1 + b;
    count, sides, mod := t[..a], t[a + 1..e], t[e..e + m];
    assert DiceParts(count, sides, mod) by {
      CountDigits(t, a);
      SidesDigits(t, a, b);
      ModifierForm(t, e, m);
    }
    assert t[..e + m] == DiceForm(count, sides, mod) by {
      Pieces(t, a, e, e + m);
      assert [t[a]] == "d";
    }
  }

  /** A prefix of `t`, cut around the character at `a` and at `e`. */
  lemma Pieces(t: string, a: nat, e: nat, k: nat)
    requires a < e <= k <= |t|
    ensures t[..k] == t[..a] + [t[a]] + t[a + 1..e] + t[e..k]
  {
  }

  lemma CountDigits(t: string, a: nat)
    requires DigitRun(t) == a
    ensures AllDigits(t[..a])
  {
  }

  lemma SidesDigits(t: string, a: nat, b: nat)
    requires a < |t| && DigitRun(t[a + 1..]) == b && a + 1 + b <= |t|
    ensures AllDigits(t[a + 1..a + 1 + b])
  {
    var u := t[a + 1..a + 1 + b];
    forall i | 0 <= i < |u| ensures IsDigit(u[i]) {
      assert u[i] == t[a + 1..][i];
    }
  }

  lemma ModifierForm(t: string, e: nat, m: nat)
    requires e + m <= |t| && (m == 0 || ModifierLen(t, e) == m)
    ensures IsModifier(t[e..e + m])
  {
    if m > 0 {
      var mod := t[e..e + m];
      assert IsSign(mod[0]) && DigitRun(t[e + 1..]) == m - 1;
      forall i | 0 <= i < m - 1 ensures IsDigit(mod[1..][i]) {
        assert mod[1..][i] == t[e + 1..][i];
      }
    }
  }

  /** Nothing that precedes the text changes a match once the character before it is not a word character. */
  lemma Restart(c: char, rest: string)
    requires IsWordChar(c) && (rest == [] || !IsWordChar(rest[0]))
    ensures ReplaceAll(Some(c), rest, DiceMatcher()) == ReplaceAll(None, rest, DiceMatcher())
  {
    if rest != [] {
      assert DigitRun(rest) == 0;
      assert rest == [rest[0]] + rest[1..];
      CopyStep(Some(c), rest[0], rest[1..], DiceMatcher());
      CopyStep(None, rest[0], rest[1..], DiceMatcher());
    }
  }

  /**
   * Text without digits that ends in a non-word character is copied, the
   * notation after it becomes `[dice]…[/dice]`, and the rest is converted on
   * its own.
   */
  lemma DiceSplit(d: string, count: string, sides: string, mod: string, rest: string)
    requires (forall i :: 0 <= i < |d| ==> !IsDigit(d[i])) && (d == [] || !IsWordChar(d[|d| - 1]))
    requires DiceParts(count, sides, mod) && Follows(mod, rest)
    ensures Dice(d + DiceForm(count, sides, mod) + rest, WorldAnvil)
         == d + "[dice]" + DiceForm(count, sides, mod) + "[/dice]" + Dice(rest, WorldAnvil)
  {
    var f := DiceMatcher();
    var x := DiceForm(count, sides, mod);
    var out := "[dice]" + x + "[/dice]" + ReplaceAll(None, rest, f);
    DigitFreeQuiet(d, x + rest);
    DiceStep(PrevAt(None, d, |d|), count, sides, mod, rest);
    CopyThen(None, d, x + rest, f, out);
    Regroup(d, x, rest);
    Regroup4(d, "[dice]", x, "[/dice]", ReplaceAll(None, rest, f));
  }

  lemma Regroup4(d: string, a: string, b: string, c: string, r: string)
    ensures d + (a + b + c + r) == d + a + b + c + r
  {
  }

  lemma DigitFreeQuiet(d: string, y: string)
    requires forall i :: 0 <= i < |d| ==> !IsDigit(d[i])
    ensures Quiet(None, d, y, DiceMatcher())
  {
    forall i | 0 <= i < |d| ensures !Consumes(DiceMatcher()(PrevAt(None, d, i), d[i..] + y), d[i..] + y) {
      assert (d[i..] + y)[0] == d[i];
      assert DigitRun(d[i..] + y) == 0;
    }
  }

  /** The notation becomes its tag, and scanning starts afresh after it. */
  lemma DiceStep(p: Option<char>, count: string, sides: string, mod: string, rest: string)
    requires !WordBefore(p) && DiceParts(count, sides, mod) && Follows(mod, rest)
    ensures var x := DiceForm(count, sides, mod);
      ReplaceAll(p, x + rest, DiceMatcher()) == "[dice]" + x + "[/dice]" + ReplaceAll(None, rest, DiceMatcher())
  {
    var f := DiceMatcher();
    var x := DiceForm(count, sides, mod);
    assert f(p, x + rest) == Some(Match(|x|, "[dice]" + x + "[/dice]")) by {
      DiceOf(p, count, sides, mod, rest);
      assert (x + rest)[..|x|] == x;
    }
    LastIsDigit(count, sides, mod);
    MatchStep(p, x, rest, f, "[dice]" + x + "[/dice]");
    Restart(x[|x| - 1], rest);
  }

  lemma LastIsDigit(count: string, sides: string, mod: string)
    requires DiceParts(count, sides, mod)
    ensures var x := DiceForm(count, sides, mod); x != [] && IsDigit(x[|x| - 1])
  {
    var x := DiceForm(count, sides, mod);
    if mod == [] {
      assert x[|x| - 1] == sides[|sides| - 1];
    } else {
      assert x[|x| - 1] == mod[1..][|mod| - 2];
    }
  }

  /** No digit of the text may start a match: each follows a word character. */
  predicate Glued(s: string) {
    forall i :: 0 <= i < |s| && IsDigit(s[i]) ==> i > 0 && IsWordChar(s[i - 1])
  }

  /** Dice notation inside a word, such as `variable3d6name`, is not converted. */
  lemma GluedUnchanged(s: string)
    requires Glued(s)
    ensures Dice(s, WorldAnvil) == s
  {
    if s != [] {
      assert DigitRun(s) == 0;
    }
    NoMatchAfterStart(s);
  }

  /** No match at the start, and every later digit follows a word character: nothing changes. */
  lemma NoMatchAfterStart(s: string)
    requires s == [] || DiceLen(None, s).None?
    requires forall i :: 0 < i < |s| && IsDigit(s[i]) ==> IsWordChar(s[i - 1])
    ensures Dice(s, WorldAnvil) == s
  {
    var f := DiceMatcher();
    forall i | 0 <= i < |s| ensures !Consumes(f(PrevAt(None, s, i), s[i..] + []), s[i..] + []) {
      assert s[i..] + [] == s[i..];
      if i > 0 && !IsDigit(s[i]) {
        assert DigitRun(s[i..]) == 0;
      }
    }
    CopyRun(None, s, [], f);
    assert s + [] == s;
  }

  /** Pieces of notation are not dice. */
  lemma Incomplete()
    ensures Dice("d6", WorldAnvil) == "d6" && Dice("3d", WorldAnvil) == "3d"
    ensures Dice("36", WorldAnvil) == "36" && Dice("3da", WorldAnvil) == "3da"
  {
    assert Glued("d6");
    GluedUnchanged("d6");
    assert DigitRun("3d"[2..]) == 0;
    NoMatchAfterStart("3d");
    assert DigitRun("36") == 2;
    NoMatchAfterStart("36");
    assert DigitRun("3da"[2..]) == 0;
    NoMatchAfterStart("3da");
  }
}
