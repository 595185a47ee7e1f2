/**
 The topic hash of src/util/joaat.hpp in 32-bit arithmetic. Every step of it can be undone,
 which is what the theorems on collisions rest on.
 */
module Joaat {

  /** A char is a byte, signed as on the platforms the program is built for. */
  type Char = bv8
  type Str = seq<Char>

  function ToLower(c: Char): Char {
    if 0x41 <= c <= 0x5A then c | 0x20 else c
  }

  /** char to std::uint32_t: the sign is extended. */
  function Widen(c: Char): bv32 {
    if c >= 0x80 then (c as bv32) | 0xFFFF_FF00 else c as bv32
  }

  // ---------------------------------------------------------------- mixing steps

  /** hash += c */
  function Add(h: bv32, c: Char): bv32 { h + Widen(c) }

  /** hash += hash << 10 */
  function Spread10(h: bv32): bv32 { h + (h << 10) }

  /** hash ^= hash >> 6 */
  function Fold6(h: bv32): bv32 { h ^ (h >> 6) }

  /** hash += hash << 3 */
  function Spread3(h: bv32): bv32 { h + (h << 3) }

  /** hash ^= hash >> 11 */
  function Fold11(h: bv32): bv32 { h ^ (h >> 11) }

  /** hash += hash << 15 */
  function Spread15(h: bv32): bv32 { h + (h << 15) }

  /** One round of the loop. */
  function Absorb(h: bv32, c: Char): bv32 {
    Fold6(Spread10(Add(h, ToLower(c))))
  }

  /** What follows the loop. */
  function Finish(h: bv32): bv32 {
    Spread15(Fold11(Spread3(h)))
  }

  function Mix(h: bv32, s: Str): bv32
    decreases |s|
  {
    if s == [] then h else Mix(Absorb(h, s[0]), s[1..])
  }

  function Hash(s: Str): bv32 {
    Finish(Mix(0, s))
  }

  // ---------------------------------------------------------------- undoing the steps

  function Unadd(x: bv32, c: Char): bv32 { x - Widen(c) }
  function Unspread10(x: bv32): bv32 { x * 0xC00F_FC01 }
  function Unfold6(x: bv32): bv32 { x ^ (x >> 6) ^ (x >> 12) ^ (x >> 18) ^ (x >> 24) ^ (x >> 30) }
  function Unspread3(x: bv32): bv32 { x * 0x38E3_8E39 }
  function Unfold11(x: bv32): bv32 { x ^ (x >> 11) ^ (x >> 22) }
  function Unspread15(x: bv32): bv32 { x * 0x3FFF_8001 }

  /** The additions of a shifted word are products with 1025, 9 and 32769. */
  lemma SpreadsMultiply()
    ensures forall h: bv32 :: Spread10(h) == h * 1025
    ensures forall h: bv32 :: Spread3(h) == h * 9
    ensures forall h: bv32 :: Spread15(h) == h * 32769
  {
  }

  lemma Unspread10OfProduct(h: bv32)
    ensures Unspread10(h * 1025) == h
  {
  }

  lemma Spread10OfProduct(h: bv32)
    ensures Spread10(h * 0xC00F_FC01) == h
  {
    SpreadsMultiply();
    hide Spread10;
  }

  lemma Spread10Inverts(h: bv32)
    ensures Unspread10(Spread10(h)) == h
  {
    hide Spread10, Unspread10;
    Unspread10OfProduct(h);
    SpreadsMultiply();
  }

  lemma Unspread10Inverts(h: bv32)
    ensures Spread10(Unspread10(h)) == h
  {
    hide Spread10;
    Spread10OfProduct(h);
  }

  lemma Unspread3OfProduct(h: bv32)
    ensures Unspread3(h * 9) == h
  {
  }

  lemma Spread3OfProduct(h: bv32)
    ensures Spread3(h * 0x38E3_8E39) == h
  {
    SpreadsMultiply();
    hide Spread3;
  }

  lemma Spread3Inverts(h: bv32)
    ensures Unspread3(Spread3(h)) == h
  {
    hide Spread3, Unspread3;
    Unspread3OfProduct(h);
    SpreadsMultiply();
  }

  lemma Unspread3Inverts(h: bv32)
    ensures Spread3(Unspread3(h)) == h
  {
    hide Spread3;
    Spread3OfProduct(h);
  }

  lemma Unspread15OfProduct(h: bv32)
    ensures Unspread15(h * 32769) == h
  {
  }

  lemma Spread15OfProduct(h: bv32)
    ensures Spread15(h * 0x3FFF_8001) == h
  {
    SpreadsMultiply();
    hide Spread15;
  }

  lemma Spread15Inverts(h: bv32)
    ensures Unspread15(Spread15(h)) == h
  {
    hide Spread15, Unspread15;
    Unspread15OfProduct(h);
    SpreadsMultiply();
  }

  lemma Unspread15Inverts(h: bv32)
    ensures Spread15(Unspread15(h)) == h
  {
    hide Spread15;
    Spread15OfProduct(h);
  }

  lemma Unfold6OfXor(h: bv32)
    ensures Unfold6(h ^ (h >> 6)) == h
  {
  }

  lemma Fold6OfXors(h: bv32)
    ensures Fold6(h ^ (h >> 6) ^ (h >> 12) ^ (h >> 18) ^ (h >> 24) ^ (h >> 30)) == h
  {
  }

  lemma Fold6Inverts(h: bv32)
    ensures Unfold6(Fold6(h)) == h
  {
    hide Unfold6;
    Unfold6OfXor(h);
  }

  lemma Unfold6Inverts(h: bv32)
    ensures Fold6(Unfold6(h)) == h
  {
    hide Fold6;
    Fold6OfXors(h);
  }

  lemma Unfold11OfXor(h: bv32)
    ensures Unfold11(h ^ (h >> 11)) == h
  {
  }

  lemma Fold11OfXors(h: bv32)
    ensures Fold11(h ^ (h >> 11) ^ (h >> 22)) == h
  {
  }

  lemma Fold11Inverts(h: bv32)
    ensures Unfold11(Fold11(h)) == h
  {
    hide Unfold11;
    Unfold11OfXor(h);
  }

  lemma Unfold11Inverts(h: bv32)
    ensures Fold11(Unfold11(h)) == h
  {
    hide Fold11;
    Fold11OfXors(h);
  }

  lemma UnaddOfSum(h: bv32, c: Char)
    ensures Unadd(h + Widen(c), c) == h
  {
    hide Widen;
  }

  lemma AddOfDifference(h: bv32, c: Char)
    ensures Add(h - Widen(c), c) == h
  {
    hide Widen;
  }

  lemma AddInverts(h: bv32, c: Char)
    ensures Unadd(Add(h, c), c) == h
  {
    hide Widen, Unadd;
    UnaddOfSum(h, c);
  }

  lemma UnaddInverts(h: bv32, c: Char)
    ensures Add(Unadd(h, c), c) == h
  {
    hide Widen, Add;
    AddOfDifference(h, c);
  }

  function Unabsorb(x: bv32, c: Char): bv32 {
    Unadd(Unspread10(Unfold6(x)), ToLower(c))
  }

  function Unfinish(x: bv32): bv32 {
    Unspread3(Unfold11(Unspread15(x)))
  }

  /** The state before a string was mixed in. */
  function Unmix(x: bv32, s: Str): bv32
    decreases |s|
  {
    if s == [] then x else Unabsorb(Unmix(x, s[1..]), s[0])
  }

  lemma AbsorbInverts(h: bv32, c: Char)
    ensures Unabsorb(Absorb(h, c), c) == h
    ensures Absorb(Unabsorb(h, c), c) == h
  {
    hide ToLower, Add, Unadd, Spread10, Unspread10, Fold6, Unfold6;
    Fold6Inverts(Spread10(Add(h, ToLower(c))));
    Spread10Inverts(Add(h, ToLower(c)));
    AddInverts(h, ToLower(c));
    UnaddInverts(Unspread10(Unfold6(h)), ToLower(c));
    Unspread10Inverts(Unfold6(h));
    Unfold6Inverts(h);
  }

  lemma FinishInverts(h: bv32)
    ensures Unfinish(Finish(h)) == h
    ensures Finish(Unfinish(h)) == h
  {
    hide Spread3, Unspread3, Fold11, Unfold11, Spread15, Unspread15;
    Spread15Inverts(Fold11(Spread3(h)));
    Fold11Inverts(Spread3(h));
    Spread3Inverts(h);
    Unspread3Inverts(Unfold11(Unspread15(h)));
    Unfold11Inverts(Unspread15(h));
    Unspread15Inverts(h);
  }

  /** For every string, mixing it in is a permutation of the 2^32 states. */
  lemma {:induction false} MixInverts(h: bv32, s: Str)
    ensures Unmix(Mix(h, s), s) == h && Mix(Unmix(h, s), s) == h
    decreases |s|
  {
    hide Absorb, Unabsorb;
    if s != [] {
      MixInverts(Absorb(h, s[0]), s[1..]);
      MixInverts(h, s[1..]);
      AbsorbInverts(h, s[0]);
      AbsorbInverts(Unmix(h, s[1..]), s[0]);
    }
  }

  lemma {:induction false} MixConcat(h: bv32, p: Str, s: Str)
    ensures Mix(h, p + s) == Mix(Mix(h, p), s)
    decreases |p|
  {
    hide Absorb;
    if p == [] {
      assert p + s == s;
    } else {
      assert (p + s)[1..] == p[1..] + s;
      MixConcat(Absorb(h, p[0]), p[1..], s);
    }
  }

  lemma FinishInjective(g: bv32, h: bv32)
    requires Finish(g) == Finish(h)
    ensures g == h
  {
    hide Finish, Unfinish;
    FinishInverts(g);
    FinishInverts(h);
  }

  // ---------------------------------------------------------------- case

  /** The same character, or an ASCII letter and the same letter in the other case. */
  predicate SameLetter(c: Char, d: Char) {
    || c == d
    || (0x41 <= c <= 0x5A && d == c + 0x20)
    || (0x41 <= d <= 0x5A && c == d + 0x20)
  }

  /** to_lower maps exactly the two cases of an ASCII letter together. */
  lemma LowerIff(c: Char, d: Char)
    ensures ToLower(c) == ToLower(d) <==> SameLetter(c, d)
  {
  }

  /** Strings that are equal but for the case of ASCII letters. */
  predicate SameLetters(s: Str, t: Str) {
    |s| == |t| && forall k :: 0 <= k < |s| ==> SameLetter(s[k], t[k])
  }

  /** A negative char is widened to the number below 2^32 that stands for it. */
  lemma WidenKeepsSign(c: Char)
    ensures c < 0x80 ==> Widen(c) < 0x80
    ensures c >= 0x80 ==> Widen(c) >= 0xFFFF_FF80
    ensures Widen(c) & 0xFF == c as bv32
  {
  }

  // ---------------------------------------------------------------- collisions

  /** Suffix cancellation: a common suffix neither makes nor breaks a collision. */
  lemma SuffixCancels(p: Str, q: Str, s: Str)
    ensures Hash(p + s) == Hash(q + s) <==> Hash(p) == Hash(q)
  {
    hide Finish, Mix, Unmix;
    MixConcat(0, p, s);
    MixConcat(0, q, s);
    if Hash(p + s) == Hash(q + s) {
      FinishInjective(Mix(0, p + s), Mix(0, q + s));
      MixInverts(Mix(0, p), s);
      MixInverts(Mix(0, q), s);
    }
    if Hash(p) == Hash(q) {
      FinishInjective(Mix(0, p), Mix(0, q));
    }
  }

  lemma WidenInjective(c: Char, d: Char)
    ensures Widen(c) == Widen(d) <==> c == d
  {
  }

  function Added(x: bv32, h: bv32): bv32 { x - h }

  lemma AddedOfSum(h: bv32, c: Char)
    ensures Added(h + Widen(c), h) == Widen(c)
  {
    hide Widen;
  }

  lemma AddInjective(h: bv32, c: Char, d: Char)
    requires Add(h, c) == Add(h, d)
    ensures c == d
  {
    WidenInjective(c, d);
    hide Added, Widen;
    AddedOfSum(h, c);
    AddedOfSum(h, d);
  }

  /** From the same state, two characters lead to the same state exactly if they are equal but for case. */
  lemma AbsorbInjective(h: bv32, c: Char, d: Char)
    ensures Absorb(h, c) == Absorb(h, d) <==> SameLetter(c, d)
  {
    LowerIff(c, d);
    hide SameLetter, Add, ToLower, Spread10, Unspread10, Fold6, Unfold6;
    var v, w := Add(h, ToLower(c)), Add(h, ToLower(d));
    Fold6Inverts(Spread10(v));
    Fold6Inverts(Spread10(w));
    Spread10Inverts(v);
    Spread10Inverts(w);
    if v == w {
      AddInjective(h, ToLower(c), ToLower(d));
    }
  }

  /** Strings that differ in one place collide exactly if they differ there in case only. */
  lemma OneCharacter(p: Str, c: Char, d: Char, s: Str)
    ensures Hash(p + [c] + s) == Hash(p + [d] + s) <==> SameLetter(c, d)
  {
    hide Finish, Mix, Absorb, ToLower, SameLetter;
    SuffixCancels(p + [c], p + [d], s);
    MixConcat(0, p, [c]);
    MixConcat(0, p, [d]);
    MixOne(Mix(0, p), c);
    MixOne(Mix(0, p), d);
    AbsorbInjective(Mix(0, p), c, d);
    if Hash(p + [c]) == Hash(p + [d]) {
      FinishInjective(Mix(0, p + [c]), Mix(0, p + [d]));
    }
  }

  lemma MixOne(h: bv32, c: Char)
    ensures Mix(h, [c]) == Absorb(h, c)
  {
    hide Absorb;
    assert [c][1..] == [];
  }

  lemma {:induction false} MixIgnoresCase(h: bv32, s: Str, t: Str)
    requires SameLetters(s, t)
    ensures Mix(h, s) == Mix(h, t)
    decreases |s|
  {
    hide Absorb, SameLetter;
    if s != [] {
      AbsorbInjective(h, s[0], t[0]);
      MixIgnoresCase(Absorb(h, s[0]), s[1..], t[1..]);
    }
  }

  /** Strings that are equal but for the case of ASCII letters have the same hash. */
  lemma CaseIsIgnored(s: Str, t: Str)
    requires SameLetters(s, t)
    ensures Hash(s) == Hash(t)
  {
    hide Finish, Mix, SameLetters;
    MixIgnoresCase(0, s, t);
  }

  /** Equal-length strings that differ, case apart, in exactly one place never collide. */
  lemma OneDifferenceNeverCollides(s: Str, t: Str, i: nat)
    requires |s| == |t| && i < |s| && !SameLetter(s[i], t[i])
    requires forall k :: 0 <= k < |s| && k != i ==> SameLetter(s[k], t[k])
    ensures Hash(s) != Hash(t)
  {
    hide Hash, SameLetter;
    // t with the character of s at i differs from s in case only, and from t at i only
    var u := t[..i] + [s[i]] + t[i + 1..];
    SameAsItself(s[i]);
    CaseIsIgnored(s, u);
    assert t == t[..i] + [t[i]] + t[i + 1..];
    OneCharacter(t[..i], s[i], t[i], t[i + 1..]);
  }

  lemma SameAsItself(c: Char)
    ensures SameLetter(c, c)
  {
  }

  /** Behind any prefix, every hash value is reached by exactly one state of the loop. */
  lemma HashIsOnto(s: Str, x: bv32)
    ensures Finish(Mix(Unmix(Unfinish(x), s), s)) == x
    ensures forall h :: Finish(Mix(h, s)) == x ==> h == Unmix(Unfinish(x), s)
  {
    hide Finish, Unfinish, Mix, Unmix;
    MixInverts(Unfinish(x), s);
    FinishInverts(x);
    forall h | Finish(Mix(h, s)) == x ensures h == Unmix(Unfinish(x), s) {
      FinishInverts(Mix(h, s));
      MixInverts(h, s);
    }
  }

  // ---------------------------------------------------------------- the three loops

  /** The body of all three hash loops. */
  method AbsorbInPlace(h: bv32, c: Char) returns (hash: bv32)
    ensures hash == Absorb(h, c)
  {
    hide Add, ToLower, Spread10, Fold6;
    hash := Add(h, ToLower(c));
    hash := Spread10(hash);
    hash := Fold6(hash);
  }

  /** The tail of all three hash loops. */
  method FinishInPlace(h: bv32) returns (hash: bv32)
    ensures hash == Finish(h)
  {
    hide Spread3, Fold11, Spread15;
    hash := Spread3(h);
    hash := Fold11(hash);
    hash := Spread15(hash);
  }

  /** joaat: the range-based loop. */
  method Compute(str: Str) returns (hash: bv32)
    ensures hash == Hash(str)
  {
    hide Absorb, Finish;
    hash := 0;
    var rest := str;
    while rest != []
      invariant Mix(hash, rest) == Mix(0, str)
      decreases |rest|
    {
      hash := AbsorbInPlace(hash, rest[0]);
      rest := rest[1..];
    }
    hash := FinishInPlace(hash);
  }

  /** operator""_J and operator""_hash: the indexed loop over the n characters of a literal. */
  method Literal(s: Str) returns (result: bv32)
    ensures result == Hash(s)
  {
    hide Absorb, Finish;
    result := 0;
    var i := 0;
    assert s[0..] == s;
    while i < |s|
      invariant 0 <= i <= |s| && Mix(result, s[i..]) == Mix(0, s)
    {
      assert s[i..][1..] == s[i + 1..];
      result := AbsorbInPlace(result, s[i]);
      i := i + 1;
    }
    result := FinishInPlace(result);
  }

  // ---------------------------------------------------------------- known values

  /** The hash of nothing is 0. */
  lemma HashOfNothing()
    ensures Hash([]) == 0
  {
  }

  /** The name of the hello topic, in ASCII. */
  const TASK_HELLO: Str := [0x74, 0x61, 0x73, 0x6B, 0x2E, 0x68, 0x65, 0x6C, 0x6C, 0x6F]

  /** The states of the loop over it. */
  lemma AbsorbTaskHello()
    ensures Absorb(0, 0x74) == 0x0001_D735
    ensures Absorb(0x0001_D735, 0x61) == 0x077D_AF28
    ensures Absorb(0x077D_AF28, 0x73) == 0xFDC4_EBF5
    ensures Absorb(0xFDC4_EBF5, 0x6B) == 0x1133_B5D1
    ensures Absorb(0x1133_B5D1, 0x2E) == 0xE38B_9F38
    ensures Absorb(0xE38B_9F38, 0x68) == 0x1242_37DE
    ensures Absorb(0x1242_37DE, 0x65) == 0x1B4F_C952
    ensures Absorb(0x1B4F_C952, 0x6C) == 0x5B1F_1AB8
    ensures Absorb(0x5B1F_1AB8, 0x6C) == 0xD4D5_8588
    ensures Absorb(0xD4D5_8588, 0x6F) == 0x2A46_D470
  {
  }

  lemma MixFrom(h: bv32, s: Str, i: nat)
    requires i < |s|
    ensures Mix(h, s[i..]) == Mix(Absorb(h, s[i]), s[i + 1..])
  {
    hide Absorb;
    assert s[i..][1..] == s[i + 1..];
  }

  lemma MixTaskHello()
    ensures Mix(0, TASK_HELLO) == 0x2A46_D470
  {
    hide Absorb, Mix;
    var s := TASK_HELLO;
    AbsorbTaskHello();
    assert s[0..] == s;
    MixFrom(0, s, 0);
    MixFrom(0x0001_D735, s, 1);
    MixFrom(0x077D_AF28, s, 2);
    MixFrom(0xFDC4_EBF5, s, 3);
    MixFrom(0x1133_B5D1, s, 4);
    MixFrom(0xE38B_9F38, s, 5);
    MixFrom(0x1242_37DE, s, 6);
    MixFrom(0x1B4F_C952, s, 7);
    MixFrom(0x5B1F_1AB8, s, 8);
    MixFrom(0xD4D5_8588, s, 9);
    MixNothing(0x2A46_D470);
    assert s[10..] == [];
  }

  lemma MixNothing(h: bv32)
    ensures Mix(h, []) == h
  {
  }

  lemma FinishTaskHello()
    ensures Finish(0x2A46_D470) == 0xF8A1_F85E
  {
  }

  /** Its hash. */
  lemma HashOfTaskHello()
    ensures Hash(TASK_HELLO) == 0xF8A1_F85E
  {
    hide Mix, Finish;
    MixTaskHello();
    FinishTaskHello();
  }
}
