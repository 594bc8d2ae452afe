/** The userId validator of backend/server.js: the case-insensitive regular
    expression `^[0-9a-f]{8}-[0-9a-f]{4}-[1-5][0-9a-f]{3}-[89ab][0-9a-f]{3}-[0-9a-f]{12}$`,
    which accepts the RFC 4122 text layout with a version digit of 1 to 5
    (section 4.1.3) and a variant digit of 8, 9, a or b (section 4.1.1). */
module Uuid {
  import Strings

  /** The character classes the expression uses. */
  datatype CharClass = Hex | Dash | Version | Variant

  /** One regular-expression atom repeated `count` times (`[0-9a-f]{8}`). */
  datatype Piece = Piece(cls: CharClass, count: nat)

  const Pattern: seq<Piece> := [
    Piece(Hex, 8), Piece(Dash, 1), Piece(Hex, 4), Piece(Dash, 1),
    Piece(Version, 1), Piece(Hex, 3), Piece(Dash, 1),
    Piece(Variant, 1), Piece(Hex, 3), Piece(Dash, 1), Piece(Hex, 12)
  ]

  predicate IsHexDigit(c: char) {
    '0' <= Strings.LowerChar(c) <= '9' || 'a' <= Strings.LowerChar(c) <= 'f'
  }

  predicate IsVariantDigit(c: char) {
    Strings.LowerChar(c) == '8' || Strings.LowerChar(c) == '9' || Strings.LowerChar(c) == 'a' || Strings.LowerChar(c) == 'b'
  }

  predicate InClass(k: CharClass, c: char) {
    match k
    case Hex => IsHexDigit(c)
    case Dash => c == '-'
    case Version => '1' <= c <= '5'
    case Variant => IsVariantDigit(c)
  }

  /** Anchored match of a sequence of pieces against the whole of `s`. */
  predicate Matches(pat: seq<Piece>, s: string)
    decreases |pat|
  {
    if pat == [] then s == []
    else
      var n := pat[0].count;
      n <= |s| && (forall i :: 0 <= i < n ==> InClass(pat[0].cls, s[i])) && Matches(pat[1..], s[n..])
  }

  /** `uuidRegex.test(s)`. */
  predicate IsUuid(s: string) {
    Matches(Pattern, s)
  }

  /** Reference definition: the layout position by position. Positions 8,
      13, 18 and 23 hold dashes, position 14 (the 13th hex digit) the version
      and position 19 (the 17th hex digit) the variant. */
  predicate PositionOk(i: nat, c: char) {
    if i == 8 || i == 13 || i == 18 || i == 23 then c == '-'
    else if i == 14 then '1' <= c <= '5'
    else if i == 19 then IsVariantDigit(c)
    else IsHexDigit(c)
  }

  predicate UuidLayout(s: string) {
    |s| == 36 && forall i :: 0 <= i < 36 ==> PositionOk(i, s[i])
  }

  /** Total length a pattern matches. */
  function Width(pat: seq<Piece>): nat {
    if pat == [] then 0 else pat[0].count + Width(pat[1..])
  }

  /** The class a pattern assigns to position `i`. */
  function ClassAt(pat: seq<Piece>, i: nat): CharClass
    requires i < Width(pat)
  {
    if i < pat[0].count then pat[0].cls else ClassAt(pat[1..], i - pat[0].count)
  }

  /** A piece pattern matches exactly the strings of its width whose every
      character lies in the class the pattern puts at its position. */
  lemma {:induction false} MatchesPositionwise(pat: seq<Piece>, s: string)
    ensures Matches(pat, s) <==>
      |s| == Width(pat) && forall i :: 0 <= i < |s| ==> InClass(ClassAt(pat, i), s[i])
  {
    if pat != [] {
      var n := pat[0].count;
      if n <= |s| {
        MatchesPositionwise(pat[1..], s[n..]);
        if |s| == Width(pat) && forall i :: 0 <= i < |s| ==> InClass(ClassAt(pat, i), s[i]) {
          forall i | 0 <= i < |s[n..]|
            ensures InClass(ClassAt(pat[1..], i), s[n..][i])
          {
            assert ClassAt(pat, i + n) == ClassAt(pat[1..], i);
          }
        }
        if Matches(pat, s) {
          forall i | 0 <= i < |s|
            ensures InClass(ClassAt(pat, i), s[i])
          {
            if i >= n {
              assert s[i] == s[n..][i - n];
            }
          }
        }
      }
    }
  }

  /** Where each position of the UUID pattern falls. */
  lemma PatternClasses(i: nat)
    requires i < 36
    ensures Width(Pattern) == 36
    ensures ClassAt(Pattern, i) ==
      if i == 8 || i == 13 || i == 18 || i == 23 then Dash
      else if i == 14 then Version
      else if i == 19 then Variant
      else Hex
  {
    var p0 := Pattern;
    var p1 := p0[1..]; var p2 := p1[1..]; var p3 := p2[1..]; var p4 := p3[1..];
    var p5 := p4[1..]; var p6 := p5[1..]; var p7 := p6[1..]; var p8 := p7[1..];
    var p9 := p8[1..]; var p10 := p9[1..];
    assert p10 == [Piece(Hex, 12)];
    assert Width(p10[1..]) == 0;
    assert Width(p10) == 12;
    assert Width(p9) == 13;
    assert Width(p8) == 16;
    assert Width(p7) == 17;
    assert Width(p6) == 18;
    assert Width(p5) == 21;
    assert Width(p4) == 22;
    assert Width(p3) == 23;
    assert Width(p2) == 27;
    assert Width(p1) == 28;
    if i >= 8 {
      assert ClassAt(p0, i) == ClassAt(p1, i - 8);
      if i >= 9 {
        assert ClassAt(p1, i - 8) == ClassAt(p2, i - 9);
        if i >= 13 {
          assert ClassAt(p2, i - 9) == ClassAt(p3, i - 13);
          if i >= 14 {
            assert ClassAt(p3, i - 13) == ClassAt(p4, i - 14);
            if i >= 15 {
              assert ClassAt(p4, i - 14) == ClassAt(p5, i - 15);
              if i >= 18 {
                assert ClassAt(p5, i - 15) == ClassAt(p6, i - 18);
                if i >= 19 {
                  assert ClassAt(p6, i - 18) == ClassAt(p7, i - 19);
                  if i >= 20 {
                    assert ClassAt(p7, i - 19) == ClassAt(p8, i - 20);
                    if i >= 23 {
                      assert ClassAt(p8, i - 20) == ClassAt(p9, i - 23);
                      if i >= 24 {
                        assert ClassAt(p9, i - 23) == ClassAt(p10, i - 24);
                      }
                    }
                  }
                }
              }
            }
          }
        }
      }
    }
  }

  /** The validator accepts exactly the RFC 4122 layout with version 1-5
      and variant 8, 9, a or b, in either letter case. */
  lemma IsUuidIffLayout(s: string)
    ensures IsUuid(s) <==> UuidLayout(s)
  {
    MatchesPositionwise(Pattern, s);
    PatternClasses(0);
    if |s| == 36 {
      forall i | 0 <= i < 36
        ensures InClass(ClassAt(Pattern, i), s[i]) <==> PositionOk(i, s[i])
      {
        PatternClasses(i);
      }
    }
  }

  /** The `i` flag: a string is accepted exactly when its lower-cased form is. */
  lemma CaseInsensitive(s: string)
    ensures IsUuid(s) <==> IsUuid(seq(|s|, i requires 0 <= i < |s| => Strings.LowerChar(s[i])))
  {
    var t := seq(|s|, i requires 0 <= i < |s| => Strings.LowerChar(s[i]));
    IsUuidIffLayout(s);
    IsUuidIffLayout(t);
    if |s| == 36 {
      forall i | 0 <= i < 36
        ensures PositionOk(i, s[i]) <==> PositionOk(i, t[i])
      {
        assert t[i] == Strings.LowerChar(s[i]);
      }
    }
  }

  /** Version digit 0 and variant digit c are rejected. */
  lemma RejectsBadVersionAndVariant()
    ensures !IsUuid("9b2f4c1e-3a7d-0e2b-8f1a-0c5d6e7f8a9b")
    ensures !IsUuid("9b2f4c1e-3a7d-4e2b-cf1a-0c5d6e7f8a9b")
  {
    var s := "9b2f4c1e-3a7d-0e2b-8f1a-0c5d6e7f8a9b";
    var t := "9b2f4c1e-3a7d-4e2b-cf1a-0c5d6e7f8a9b";
    assert !PositionOk(14, s[14]);
    assert !PositionOk(19, t[19]);
    IsUuidIffLayout(s);
    IsUuidIffLayout(t);
  }
}
