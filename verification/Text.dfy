/** String operations the repository takes from Go's `strings` and `path` packages. */
module Text {

  function LowerChar(c: char): (r: char)
    ensures 'A' <= c <= 'Z' <==> r != c
  {
    if 'A' <= c <= 'Z' then (c as int + 32) as char else c
  }

  /** Lower-cases ASCII letters. */
  function Lower(s: string): (r: string)
    ensures |r| == |s|
    ensures forall i :: 0 <= i < |s| ==> r[i] == LowerChar(s[i])
  {
    seq(|s|, i requires 0 <= i < |s| => LowerChar(s[i]))
  }

  lemma LowerAlphabet(i: nat)
    requires i < 26
    ensures Lower("ABCDEFGHIJKLMNOPQRSTUVWXYZ")[i] == "abcdefghijklmnopqrstuvwxyz"[i]
  {
  }

  lemma LowerIdempotent(s: string)
    ensures Lower(Lower(s)) == Lower(s)
  {
  }

  /** The spellings of `ids`, folded to lower case. */
  function Fold(ids: set<string>): set<string> {
    set id | id in ids :: Lower(id)
  }

  function Elements(ids: seq<string>): set<string> {
    set id | id in ids
  }

  predicate IsFolded(ids: set<string>) {
    forall id :: id in ids ==> Lower(id) == id
  }

  lemma FoldIsFolded(ids: set<string>)
    ensures IsFolded(Fold(ids))
  {
    forall id | id in ids {
      LowerIdempotent(id);
    }
  }

  predicate Contains(s: string, sub: string) {
    sub <= s || (s != [] && Contains(s[1..], sub))
  }

  /** `sub` is contained in `s` exactly if it starts at some position of it. */
  lemma {:induction false} ContainsIff(s: string, sub: string)
    ensures Contains(s, sub) <==> exists i :: 0 <= i <= |s| && sub <= s[i..]
  {
    assert s[0..] == s;
    if s != [] {
      ContainsIff(s[1..], sub);
      assert forall i :: 0 < i <= |s| ==> s[i..] == s[1..][i - 1..];
      if i :| 0 <= i <= |s[1..]| && sub <= s[1..][i..] {
        assert s[i + 1..] == s[1..][i..];
      }
    }
  }

  lemma SplitAt(s: string, sub: string, i: nat)
    requires i <= |s| && sub <= s[i..]
    ensures s == s[..i] + sub + s[i..][|sub|..]
  {
    var tail := s[i..];
    assert tail == sub + tail[|sub|..];
    assert s == s[..i] + tail;
  }

  lemma StartsAfter(a: string, sub: string, b: string)
    ensures sub <= (a + sub + b)[|a|..]
  {
    assert (a + sub + b)[|a|..] == sub + b;
  }

  /** Equivalently, if it splits `s`. */
  lemma ContainedSplits(s: string, sub: string)
    ensures Contains(s, sub) <==> exists a, b :: s == a + sub + b
  {
    ContainsIff(s, sub);
    if Contains(s, sub) {
      var i :| 0 <= i <= |s| && sub <= s[i..];
      SplitAt(s, sub, i);
    }
    if a, b :| s == a + sub + b {
      StartsAfter(a, sub, b);
    }
  }

  /** Go's `<` on strings. */
  predicate Less(a: string, b: string) {
    b != [] && (a == [] || a[0] < b[0] || (a[0] == b[0] && Less(a[1..], b[1..])))
  }

  /** A proper prefix is smaller, and otherwise the first difference decides. */
  lemma {:induction false} LessIff(a: string, b: string)
    ensures Less(a, b) <==>
      exists k :: 0 <= k <= |a| && k < |b| && a[..k] == b[..k] && (k == |a| || a[k] < b[k])
  {
    if a == [] || b == [] || a[0] != b[0] {
      assert a[..0] == b[..0];
      assert forall k :: 0 < k <= |a| && k < |b| && a[..k] == b[..k] ==> a[..k][0] == b[..k][0];
    } else {
      LessIff(a[1..], b[1..]);
      if k :| 0 <= k <= |a| && k < |b| && a[..k] == b[..k] && (k == |a| || a[k] < b[k]) {
        assert a[1..][..k - 1] == a[..k][1..] == b[..k][1..] == b[1..][..k - 1];
      }
      if k :| 0 <= k <= |a[1..]| && k < |b[1..]| && a[1..][..k] == b[1..][..k]
              && (k == |a[1..]| || a[1..][k] < b[1..][k]) {
        assert a[..k + 1] == [a[0]] + a[1..][..k] == [b[0]] + b[1..][..k] == b[..k + 1];
      }
    }
  }

  lemma {:induction false} LessTotal(a: string, b: string)
    ensures Less(a, b) || a == b || Less(b, a)
    ensures !(Less(a, b) && Less(b, a))
    ensures !Less(a, a)
  {
    if a != [] && b != [] {
      LessTotal(a[1..], b[1..]);
      assert a == [a[0]] + a[1..] && b == [b[0]] + b[1..];
    }
    if a != [] {
      LessTotal(a[1..], a[1..]);
    }
  }

  lemma {:induction false} LessTransitive(a: string, b: string, c: string)
    requires Less(a, b) && Less(b, c)
    ensures Less(a, c)
  {
    if a != [] && a[0] == b[0] && b[0] == c[0] {
      LessTransitive(a[1..], b[1..], c[1..]);
    }
  }

  /** Joins with a one-character separator, as getIDKey does. */
  function Join(a: string, sep: char, b: string): string {
    a + [sep] + b
  }

  lemma JoinInjective(a: string, b: string, sep: char, c: string, d: string)
    requires sep !in a && sep !in c
    requires Join(a, sep, b) == Join(c, sep, d)
    ensures a == c && b == d
  {
    var s, t := Join(a, sep, b), Join(c, sep, d);
    assert forall i :: 0 <= i < |a| ==> s[i] == a[i] && s[i] != sep;
    assert forall i :: 0 <= i < |c| ==> t[i] == c[i] && t[i] != sep;
    assert s[|a|] == sep && t[|c|] == sep;
    assert s[..|a|] == a && t[..|c|] == c;
    assert s[|a| + 1..] == b && t[|c| + 1..] == d;
  }
}
