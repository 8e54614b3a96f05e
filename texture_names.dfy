/** The order in which the WAD viewer lists texture names: case-insensitive, with the two-character
    `+`/`-` animation and toggle prefix ignored unless it is the only difference between two names.
    Names are treated as C strings: a NUL character ends them. */
module TextureNames {

  /** A name starts with a `+` or `-` texture specifier; the empty name's first character is the
      terminating NUL. */
  predicate HasTextureSpecifiers(name: string) {
    |name| > 0 && (name[0] == '+' || name[0] == '-')
  }

  /** Skipping a specifier moves two characters forward, which stays inside the string only when
      it has at least two characters; shorter names with a specifier are excluded. */
  predicate SpecifiersSkippable(name: string) {
    HasTextureSpecifiers(name) ==> |name| >= 2
  }

  function SkipTextureSpecifiers(name: string): (base: string)
    requires SpecifiersSkippable(name)
    ensures HasTextureSpecifiers(name) ==> name == name[..2] + base
    ensures !HasTextureSpecifiers(name) ==> base == name
  {
    if HasTextureSpecifiers(name) then name[2..] else name
  }

  /** ASCII lower-casing, as in the C locale. */
  function ToLower(c: char): (l: char)
    ensures 'A' <= c <= 'Z' ==> l as int == c as int + 32
    ensures !('A' <= c <= 'Z') ==> l == c
  {
    if 'A' <= c <= 'Z' then (c as int + 32) as char else c
  }

  /** The character code at i of a C string, with the terminator (0) past the end. */
  function LowerAt(s: string, i: nat): int {
    if i < |s| then ToLower(s[i]) as int else 0
  }

  /** `_stricmp`: the difference of the first pair of lower-cased characters that differ, or that
      are both the terminator. */
  function StrICmp(a: string, b: string): int
    decreases |a|
  {
    var ca := LowerAt(a, 0);
    var cb := LowerAt(b, 0);
    if ca != cb || ca == 0 then ca - cb else StrICmp(a[1..], b[1..])
  }

  /** The comparison used to sort WAD entries by name. */
  function TextureNameLess(left: string, right: string): bool
    requires SpecifiersSkippable(left) && SpecifiersSkippable(right)
  {
    var skippedLeft := SkipTextureSpecifiers(left);
    var skippedRight := SkipTextureSpecifiers(right);
    // When the base names are the same the specifiers decide the order.
    if (HasTextureSpecifiers(left) || HasTextureSpecifiers(right)) && StrICmp(skippedLeft, skippedRight) != 0
    then StrICmp(skippedLeft, skippedRight) < 0
    else StrICmp(left, right) < 0
  }

  // ---------------------------------------------------------------------------------------------
  // A reference order

  /** The C string as `_stricmp` sees it: up to the first NUL, lower-cased. */
  function Folded(s: string): (f: seq<int>)
    ensures |f| <= |s|
    ensures forall i | 0 <= i < |f| :: f[i] > 0
  {
    if s == [] || s[0] == '\0' then [] else [ToLower(s[0]) as int] + Folded(s[1..])
  }

  /** Strict lexicographic order on character codes; a proper prefix comes first. */
  predicate LexLess(x: seq<int>, y: seq<int>)
    decreases |x|
  {
    if x == [] then y != []
    else if y == [] then false
    else x[0] < y[0] || (x[0] == y[0] && LexLess(x[1..], y[1..]))
  }

  lemma {:induction false} LexLessIrreflexive(x: seq<int>)
    ensures !LexLess(x, x)
    decreases |x|
  {
    if x != [] {
      LexLessIrreflexive(x[1..]);
    }
  }

  lemma {:induction false} LexLessTransitive(x: seq<int>, y: seq<int>, z: seq<int>)
    requires LexLess(x, y) && LexLess(y, z)
    ensures LexLess(x, z)
    decreases |x|
  {
    if x != [] && y != [] && z != [] && x[0] == y[0] && y[0] == z[0] {
      LexLessTransitive(x[1..], y[1..], z[1..]);
    }
  }

  /** Any two different sequences are ordered one way, and only one way. */
  lemma {:induction false} LexLessTotal(x: seq<int>, y: seq<int>)
    ensures x != y <==> LexLess(x, y) || LexLess(y, x)
    ensures !(LexLess(x, y) && LexLess(y, x))
    decreases |x|
  {
    if x != [] && y != [] {
      LexLessTotal(x[1..], y[1..]);
      if x[0] == y[0] {
        assert x == [x[0]] + x[1..] && y == [y[0]] + y[1..];
      }
    } else if x == [] {
      LexLessIrreflexive(y);
    }
  }

  /** `_stricmp` is zero exactly on equal folded strings and negative exactly on folded strings in
      lexicographic order. */
  lemma {:induction false} StrICmpIsFoldedOrder(a: string, b: string)
    ensures StrICmp(a, b) == 0 <==> Folded(a) == Folded(b)
    ensures StrICmp(a, b) < 0 <==> LexLess(Folded(a), Folded(b))
    decreases |a|
  {
    var ca := LowerAt(a, 0);
    var cb := LowerAt(b, 0);
    assert ca == 0 <==> Folded(a) == [];
    assert cb == 0 <==> Folded(b) == [];
    assert ca != 0 ==> Folded(a)[0] == ca;
    assert cb != 0 ==> Folded(b)[0] == cb;
    if ca == cb && ca != 0 {
      StrICmpIsFoldedOrder(a[1..], b[1..]);
      assert Folded(a) == [ca] + Folded(a[1..]) && Folded(a)[1..] == Folded(a[1..]);
      assert Folded(b) == [cb] + Folded(b[1..]) && Folded(b)[1..] == Folded(b[1..]);
    }
  }

  /** The sort key: the folded base name, then the folded full name. */
  predicate KeyLess(left: string, right: string)
    requires SpecifiersSkippable(left) && SpecifiersSkippable(right)
  {
    var baseLeft := Folded(SkipTextureSpecifiers(left));
    var baseRight := Folded(SkipTextureSpecifiers(right));
    LexLess(baseLeft, baseRight) || (baseLeft == baseRight && LexLess(Folded(left), Folded(right)))
  }

  /** The comparator is the lexicographic order on the key (folded base name, folded full name). */
  lemma TextureNameLessIsKeyLess(left: string, right: string)
    requires SpecifiersSkippable(left) && SpecifiersSkippable(right)
    ensures TextureNameLess(left, right) <==> KeyLess(left, right)
  {
    StrICmpIsFoldedOrder(left, right);
    StrICmpIsFoldedOrder(SkipTextureSpecifiers(left), SkipTextureSpecifiers(right));
  }

  // ---------------------------------------------------------------------------------------------
  // Properties of the comparator

  /** Without specifiers the order is `_stricmp` on the full names, that is the lexicographic
      order of the names up to case. */
  lemma NoSpecifierOrder(left: string, right: string)
    requires !HasTextureSpecifiers(left) && !HasTextureSpecifiers(right)
    ensures TextureNameLess(left, right) <==> StrICmp(left, right) < 0
    ensures TextureNameLess(left, right) <==> LexLess(Folded(left), Folded(right))
  {
    StrICmpIsFoldedOrder(left, right);
  }

  /** With a specifier on either side, base names that differ case-insensitively decide the order;
      otherwise the full names do. */
  lemma SpecifierOrder(left: string, right: string)
    requires SpecifiersSkippable(left) && SpecifiersSkippable(right)
    requires HasTextureSpecifiers(left) || HasTextureSpecifiers(right)
    ensures var baseLeft := SkipTextureSpecifiers(left);
      var baseRight := SkipTextureSpecifiers(right);
      TextureNameLess(left, right)
      <==> if Folded(baseLeft) != Folded(baseRight) then LexLess(Folded(baseLeft), Folded(baseRight))
           else LexLess(Folded(left), Folded(right))
  {
    StrICmpIsFoldedOrder(left, right);
    StrICmpIsFoldedOrder(SkipTextureSpecifiers(left), SkipTextureSpecifiers(right));
  }

  lemma TextureNameLessIrreflexive(name: string)
    requires SpecifiersSkippable(name)
    ensures !TextureNameLess(name, name)
  {
    TextureNameLessIsKeyLess(name, name);
    LexLessIrreflexive(Folded(SkipTextureSpecifiers(name)));
    LexLessIrreflexive(Folded(name));
  }

  lemma TextureNameLessAsymmetric(a: string, b: string)
    requires SpecifiersSkippable(a) && SpecifiersSkippable(b)
    ensures TextureNameLess(a, b) ==> !TextureNameLess(b, a)
  {
    TextureNameLessIsKeyLess(a, b);
    TextureNameLessIsKeyLess(b, a);
    LexLessTotal(Folded(SkipTextureSpecifiers(a)), Folded(SkipTextureSpecifiers(b)));
    LexLessTotal(Folded(a), Folded(b));
  }

  lemma TextureNameLessTransitive(a: string, b: string, c: string)
    requires SpecifiersSkippable(a) && SpecifiersSkippable(b) && SpecifiersSkippable(c)
    requires TextureNameLess(a, b) && TextureNameLess(b, c)
    ensures TextureNameLess(a, c)
  {
    TextureNameLessIsKeyLess(a, b);
    TextureNameLessIsKeyLess(b, c);
    TextureNameLessIsKeyLess(a, c);
    var ba, bb, bc := Folded(SkipTextureSpecifiers(a)), Folded(SkipTextureSpecifiers(b)),
                      Folded(SkipTextureSpecifiers(c));
    if LexLess(ba, bb) && LexLess(bb, bc) {
      LexLessTransitive(ba, bb, bc);
    } else if LexLess(Folded(a), Folded(b)) && LexLess(Folded(b), Folded(c)) {
      LexLessTransitive(Folded(a), Folded(b), Folded(c));
    }
  }

  /** Two names neither of which sorts before the other have the same base name and the same
      full name up to case, so that being unordered is an equivalence and the comparator a strict
      weak order, as sorting requires. */
  lemma TextureNameEquivalence(a: string, b: string)
    requires SpecifiersSkippable(a) && SpecifiersSkippable(b)
    ensures !TextureNameLess(a, b) && !TextureNameLess(b, a)
            <==> Folded(SkipTextureSpecifiers(a)) == Folded(SkipTextureSpecifiers(b)) && Folded(a) == Folded(b)
  {
    TextureNameLessIsKeyLess(a, b);
    TextureNameLessIsKeyLess(b, a);
    LexLessTotal(Folded(SkipTextureSpecifiers(a)), Folded(SkipTextureSpecifiers(b)));
    LexLessTotal(Folded(a), Folded(b));
  }
}
