/** String operations of the token picker: `toLowerCase` (on ASCII letters),
    JavaScript's `<` on strings, and the case-insensitive literal search that an
    escaped query compiled with the `i` flag performs. */
module Text {

  predicate IsUpper(c: char) {
    'A' <= c <= 'Z'
  }

  function LowerChar(c: char): (r: char)
    ensures !IsUpper(r)
    ensures !IsUpper(c) ==> r == c
  {
    if IsUpper(c) then (c as int + 32) as char else c
  }

  /** `String.prototype.toLowerCase`, restricted to ASCII letters. */
  function Lower(s: string): (r: string)
    ensures |r| == |s|
    ensures forall i :: 0 <= i < |s| ==> r[i] == LowerChar(s[i])
  {
    seq(|s|, i requires 0 <= i < |s| => LowerChar(s[i]))
  }

  /** Lower-casing twice is lower-casing once. */
  lemma LowerIdempotent(s: string)
    ensures Lower(Lower(s)) == Lower(s)
  {
    assert forall i :: 0 <= i < |s| ==> Lower(Lower(s))[i] == Lower(s)[i];
  }

  // ---------------------------------------------------------------------------
  // JavaScript's `a < b` on strings: code unit by code unit, a proper prefix first.

  predicate StrLess(a: string, b: string)
    decreases |a|
  {
    if |a| == 0 then |b| > 0
    else if |b| == 0 then false
    else if a[0] < b[0] then true
    else if b[0] < a[0] then false
    else StrLess(a[1..], b[1..])
  }

  /** The declarative reading of the same order: `a` is a proper prefix of `b`, or
      the two agree up to some position where `a` holds the smaller character. */
  ghost predicate DiffersFirstAt(a: string, b: string, i: int) {
    0 <= i < |a| && i < |b| && a[..i] == b[..i] && a[i] < b[i]
  }

  ghost predicate LexLess(a: string, b: string) {
    (|a| < |b| && a == b[..|a|]) || exists i :: DiffersFirstAt(a, b, i)
  }

  lemma {:induction false} StrLessIsLexLess(a: string, b: string)
    ensures StrLess(a, b) <==> LexLess(a, b)
    decreases |a|
  {
    if |a| == 0 {
      assert !DiffersFirstAt(a, b, 0);
    } else if |b| == 0 {
      assert forall i :: !DiffersFirstAt(a, b, i);
    } else if a[0] < b[0] {
      assert DiffersFirstAt(a, b, 0);
    } else if b[0] < a[0] {
      assert forall i :: !DiffersFirstAt(a, b, i);
    } else {
      StrLessIsLexLess(a[1..], b[1..]);
      if StrLess(a[1..], b[1..]) {
        if |a[1..]| < |b[1..]| && a[1..] == b[1..][..|a[1..]|] {
          assert a == b[..|a|] by {
            assert a == [a[0]] + a[1..];
            assert b[..|a|] == [b[0]] + b[1..][..|a[1..]|];
          }
        } else {
          var i :| DiffersFirstAt(a[1..], b[1..], i);
          assert a[..i + 1] == [a[0]] + a[1..][..i];
          assert b[..i + 1] == [b[0]] + b[1..][..i];
          assert DiffersFirstAt(a, b, i + 1);
        }
      } else {
        forall i | DiffersFirstAt(a, b, i) ensures false {
          if i == 0 {
          } else {
            assert a[1..][..i - 1] == a[..i][1..];
            assert b[1..][..i - 1] == b[..i][1..];
            assert DiffersFirstAt(a[1..], b[1..], i - 1);
          }
        }
      }
    }
  }

  lemma {:induction false} StrLessIrreflexive(a: string)
    ensures !StrLess(a, a)
    decreases |a|
  {
    if |a| > 0 {
      StrLessIrreflexive(a[1..]);
    }
  }

  lemma {:induction false} StrLessAsymmetric(a: string, b: string)
    ensures StrLess(a, b) ==> !StrLess(b, a)
    decreases |a|
  {
    if |a| > 0 && |b| > 0 && a[0] == b[0] {
      StrLessAsymmetric(a[1..], b[1..]);
    }
  }

  lemma {:induction false} StrLessTransitive(a: string, b: string, c: string)
    ensures StrLess(a, b) && StrLess(b, c) ==> StrLess(a, c)
    decreases |a|
  {
    if |a| > 0 && |b| > 0 && |c| > 0 && a[0] == b[0] == c[0] {
      StrLessTransitive(a[1..], b[1..], c[1..]);
    }
  }

  /** Two different strings are always ordered one way or the other. */
  lemma {:induction false} StrLessTotal(a: string, b: string)
    ensures a != b ==> StrLess(a, b) || StrLess(b, a)
    decreases |a|
  {
    if |a| > 0 && |b| > 0 && a[0] == b[0] {
      StrLessTotal(a[1..], b[1..]);
      if a[1..] == b[1..] {
        assert a == [a[0]] + a[1..] && b == [b[0]] + b[1..];
      }
    }
  }

  // ---------------------------------------------------------------------------
  // Literal substring search, as the regular-expression engine performs it on an
  // escaped pattern: try each start position in turn.

  predicate StartsWith(s: string, p: string) {
    |p| <= |s| && s[..|p|] == p
  }

  predicate Occurs(p: string, s: string)
    decreases |s|
  {
    StartsWith(s, p) || (|s| > 0 && Occurs(p, s[1..]))
  }

  ghost predicate OccursAt(p: string, s: string, i: int) {
    0 <= i && i + |p| <= |s| && s[i..i + |p|] == p
  }

  /** The scan finds `p` exactly when `p` is a contiguous slice of `s`. */
  lemma {:induction false} OccursIffSlice(p: string, s: string)
    ensures Occurs(p, s) <==> exists i :: OccursAt(p, s, i)
    decreases |s|
  {
    if StartsWith(s, p) {
      assert OccursAt(p, s, 0);
    } else if |s| == 0 {
      assert forall i :: !OccursAt(p, s, i);
    } else {
      OccursIffSlice(p, s[1..]);
      if Occurs(p, s[1..]) {
        var i :| OccursAt(p, s[1..], i);
        assert s[1..][i..i + |p|] == s[i + 1..i + 1 + |p|];
        assert OccursAt(p, s, i + 1);
      } else {
        forall i | OccursAt(p, s, i) ensures false {
          assert i != 0;
          assert s[1..][i - 1..i - 1 + |p|] == s[i..i + |p|];
          assert OccursAt(p, s[1..], i - 1);
        }
      }
    }
  }

  /** The empty pattern occurs in every string. */
  lemma EmptyOccurs(s: string)
    ensures Occurs("", s)
  {
    assert StartsWith(s, "");
  }

  /** `field.match(new RegExp(escapeStringRegex(query), 'i'))` succeeds:
      the query occurs literally in the field, ignoring the case of ASCII letters. */
  predicate ContainsIgnoreCase(field: string, query: string) {
    Occurs(Lower(query), Lower(field))
  }

  /** The pattern is literal: a `.` in the query matches only a `.`. */
  lemma DotIsLiteral()
    ensures ContainsIgnoreCase("A.C", "a.c")
    ensures !ContainsIgnoreCase("abc", "a.c")
  {
    assert Lower("A.C") == "a.c";
    assert StartsWith(Lower("A.C"), Lower("a.c"));
    var l := Lower("abc");
    assert l == "abc";
    assert l[1] == 'b';
    assert !StartsWith(l, "a.c");
    assert !StartsWith(l[1..], "a.c");
    assert !StartsWith(l[1..][1..], "a.c");
    assert !StartsWith(l[1..][1..][1..], "a.c");
  }
}
