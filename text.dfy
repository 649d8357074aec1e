/**
 * String operations of the JavaScript runtime that the adapter and the
 * configuration store rely on: `split` and `join` with a string separator,
 * `replace` of the first occurrence of a literal string, `startsWith`,
 * `endsWith`, and the set of characters a regular-expression `.` refuses.
 */
module Text {

  /** `pat` occurs in `s` at some position. */
  predicate Occurs(pat: string, s: string)
    decreases |s|
  {
    pat <= s || (s != [] && Occurs(pat, s[1..]))
  }

  /** Occurs is the existence of a position at which `pat` starts. */
  lemma {:induction false} OccursAt(pat: string, s: string)
    ensures Occurs(pat, s) <==> exists i :: 0 <= i <= |s| && pat <= s[i..]
    decreases |s|
  {
    if pat <= s {
      assert s[0..] == s;
    } else if s != [] {
      OccursAt(pat, s[1..]);
      if Occurs(pat, s[1..]) {
        var i :| 0 <= i <= |s[1..]| && pat <= s[1..][i..];
        assert s[1..][i..] == s[i + 1..];
      }
      if exists i :: 0 <= i <= |s| && pat <= s[i..] {
        var i :| 0 <= i <= |s| && pat <= s[i..];
        assert i != 0;
        assert s[1..][i - 1..] == s[i..];
      }
    }
  }

  /** JavaScript's `s.endsWith(suffix)`. */
  predicate EndsWith(s: string, suffix: string) {
    |suffix| <= |s| && s[|s| - |suffix|..] == suffix
  }

  /** The characters a regular-expression `.` does not match (ECMAScript LineTerminator). */
  predicate IsLineTerminator(c: char) {
    c == '\n' || c == '\r' || c == '\U{2028}' || c == '\U{2029}'
  }

  /** No line terminator in `s`. */
  predicate OneLine(s: string) {
    forall i :: 0 <= i < |s| ==> !IsLineTerminator(s[i])
  }

  /**
   * JavaScript's `s.split(sep)` for a non-empty separator: the pieces between
   * the non-overlapping occurrences of `sep`, found from the left.
   */
  function SplitOn(s: string, sep: string): (r: seq<string>)
    requires sep != []
    ensures |r| >= 1
    decreases |s|
  {
    if s == [] then [[]]
    else if sep <= s then [[]] + SplitOn(s[|sep|..], sep)
    else
      var rest := SplitOn(s[1..], sep);
      [[s[0]] + rest[0]] + rest[1..]
  }

  /** A one-character separator absent from `s` leaves `s` whole. */
  lemma {:induction false} SplitOnAbsent(s: string, sep: string)
    requires |sep| == 1 && sep[0] !in s
    ensures SplitOn(s, sep) == [s]
    decreases |s|
  {
    if s != [] {
      assert !(sep <= s) && sep[0] !in s[1..];
      SplitOnAbsent(s[1..], sep);
      assert [s[0]] + s[1..] == s;
    }
  }

  /** Splitting on a one-character separator cuts at its first occurrence. */
  lemma {:induction false} SplitOnFirst(a: string, sep: string, b: string)
    requires |sep| == 1 && sep[0] !in a
    ensures SplitOn(a + sep + b, sep) == [a] + SplitOn(b, sep)
    decreases |a|
  {
    var s := a + sep + b;
    if a == [] {
      assert s == sep + b;
      assert s[|sep|..] == b;
    } else {
      assert s[0] == a[0] != sep[0];
      assert s[1..] == a[1..] + sep + b;
      SplitOnFirst(a[1..], sep, b);
      assert [s[0]] + a[1..] == a;
    }
  }

  /** JavaScript's `parts.join(sep)`. */
  function Join(parts: seq<string>, sep: string): string
    decreases |parts|
  {
    if |parts| == 0 then []
    else if |parts| == 1 then parts[0]
    else parts[0] + sep + Join(parts[1..], sep)
  }

  /** Joining the pieces of a split with the same separator gives the text back. */
  lemma {:induction false} JoinSplit(s: string, sep: string)
    requires sep != []
    ensures Join(SplitOn(s, sep), sep) == s
    decreases |s|
  {
    if s == [] {
    } else if sep <= s {
      var rest := SplitOn(s[|sep|..], sep);
      JoinSplit(s[|sep|..], sep);
      assert SplitOn(s, sep) == [[]] + rest;
      assert Join([[]] + rest, sep) == [] + sep + Join(rest, sep);
    } else {
      var rest := SplitOn(s[1..], sep);
      JoinSplit(s[1..], sep);
      assert SplitOn(s, sep) == [[s[0]] + rest[0]] + rest[1..];
      JoinCons(s[0], rest, sep);
      assert s == [s[0]] + s[1..];
    }
  }

  /** Putting a character in front of the first piece puts it in front of the join. */
  lemma JoinCons(c: char, rest: seq<string>, sep: string)
    requires |rest| >= 1
    ensures Join([[c] + rest[0]] + rest[1..], sep) == [c] + Join(rest, sep)
  {
    var r := [[c] + rest[0]] + rest[1..];
    if |rest| > 1 {
      assert r[1..] == rest[1..];
      assert Join(r, sep) == ([c] + rest[0]) + sep + Join(rest[1..], sep);
    }
  }

  /** No piece of a split contains the separator. */
  lemma {:induction false} SplitPiecesAvoidSeparator(s: string, sep: string)
    requires sep != []
    ensures forall k :: 0 <= k < |SplitOn(s, sep)| ==> !Occurs(sep, SplitOn(s, sep)[k])
    decreases |s|
  {
    if s == [] {
    } else if sep <= s {
      SplitPiecesAvoidSeparator(s[|sep|..], sep);
      var rest := SplitOn(s[|sep|..], sep);
      assert SplitOn(s, sep) == [[]] + rest;
      forall k | 0 <= k < |SplitOn(s, sep)| ensures !Occurs(sep, SplitOn(s, sep)[k]) {
        if k > 0 { assert SplitOn(s, sep)[k] == rest[k - 1]; }
      }
    } else {
      SplitPiecesAvoidSeparator(s[1..], sep);
      var rest := SplitOn(s[1..], sep);
      var first := [s[0]] + rest[0];
      FirstPieceAvoidsSeparator(s, sep);
      assert SplitOn(s, sep) == [first] + rest[1..];
      forall k | 0 <= k < |SplitOn(s, sep)| ensures !Occurs(sep, SplitOn(s, sep)[k]) {
        if k > 0 { assert SplitOn(s, sep)[k] == rest[k]; }
      }
    }
  }

  /** The first piece of a split contains no occurrence of the separator. */
  lemma {:induction false} FirstPieceAvoidsSeparator(s: string, sep: string)
    requires sep != []
    ensures !Occurs(sep, SplitOn(s, sep)[0])
    decreases |s|
  {
    var p := SplitOn(s, sep)[0];
    if s == [] {
      assert p == [];
    } else if sep <= s {
      assert p == [];
    } else {
      FirstPieceAvoidsSeparator(s[1..], sep);
      var q := SplitOn(s[1..], sep)[0];
      assert p == [s[0]] + q;
      // p is a prefix of s, so sep at the start of p would be sep at the start of s
      FirstPieceIsPrefix(s, sep);
      assert p[1..] == q;
    }
  }

  /** The first piece of a split is a prefix of the text. */
  lemma {:induction false} FirstPieceIsPrefix(s: string, sep: string)
    requires sep != []
    ensures SplitOn(s, sep)[0] <= s
    decreases |s|
  {
    if s != [] && !(sep <= s) {
      FirstPieceIsPrefix(s[1..], sep);
      PrefixCons(s[0], SplitOn(s[1..], sep)[0], s[1..]);
      assert [s[0]] + s[1..] == s;
    }
  }

  lemma PrefixCons(c: char, p: string, t: string)
    requires p <= t
    ensures [c] + p <= [c] + t
  {
    assert ([c] + t)[..|p| + 1] == [c] + t[..|p|];
  }

  /** A one-character pattern occurs exactly when the character is in the text. */
  lemma OccursChar(c: char, s: string)
    ensures Occurs([c], s) <==> c in s
  {
    OccursAt([c], s);
    if c in s {
      var i :| 0 <= i < |s| && s[i] == c;
      assert [c] <= s[i..];
    }
    if Occurs([c], s) {
      var i :| 0 <= i <= |s| && [c] <= s[i..];
      assert s[i..][0] == s[i];
    }
  }

  /** Join of two parts or more: the first two parts around a separator, then the rest after another. */
  lemma JoinFirstTwo(parts: seq<string>, sep: string)
    requires |parts| >= 2
    ensures var rest := if |parts| == 2 then [] else sep + Join(parts[2..], sep);
      Join(parts, sep) == parts[0] + sep + parts[1] + rest
  {
    assert parts[1..][0] == parts[1];
    if |parts| > 2 {
      assert parts[1..][1..] == parts[2..];
    }
  }

  /** Join peels off its last part. */
  lemma {:induction false} JoinLast(parts: seq<string>, sep: string)
    requires |parts| >= 2
    ensures Join(parts, sep) == Join(parts[..|parts| - 1], sep) + sep + parts[|parts| - 1]
    decreases |parts|
  {
    if |parts| > 2 {
      JoinLast(parts[1..], sep);
      assert parts[1..][..|parts| - 2] == parts[..|parts| - 1][1..];
    }
  }

  /**
   * JavaScript's `s.replace(pat, '')` with a string pattern: the first
   * occurrence of `pat` is removed; without one, the text is unchanged.
   */
  function RemoveFirst(s: string, pat: string): string
    requires pat != []
    decreases |s|
  {
    if pat <= s then s[|pat|..]
    else if s == [] then []
    else [s[0]] + RemoveFirst(s[1..], pat)
  }

  /** RemoveFirst cuts out the leftmost occurrence and keeps everything else. */
  lemma {:induction false} RemoveFirstAt(s: string, pat: string, i: nat)
    requires pat != []
    requires i <= |s| && pat <= s[i..]
    requires forall j :: 0 <= j < i ==> !(pat <= s[j..])
    ensures RemoveFirst(s, pat) == s[..i] + s[i + |pat|..]
    decreases i
  {
    if i == 0 {
      assert s[0..] == s;
    } else {
      var t := s[1..];
      NoMatchBefore(s, pat, i);
      assert RemoveFirst(s, pat) == [s[0]] + RemoveFirst(t, pat);
      assert t[i - 1..] == s[i..];
      RemoveFirstAt(t, pat, i - 1);
      assert s[..i] == [s[0]] + t[..i - 1];
      assert t[i - 1 + |pat|..] == s[i + |pat|..];
    }
  }

  /** No match before position `i > 0` of `s` means none at its start and none before `i - 1` of its tail. */
  lemma NoMatchBefore(s: string, pat: string, i: nat)
    requires 0 < i <= |s|
    requires forall j :: 0 <= j < i ==> !(pat <= s[j..])
    ensures !(pat <= s)
    ensures forall j :: 0 <= j < i - 1 ==> !(pat <= s[1..][j..])
  {
    assert s[0..] == s;
    forall j | 0 <= j < i - 1 ensures !(pat <= s[1..][j..]) {
      assert s[1..][j..] == s[j + 1..];
    }
  }

  /** Without an occurrence of the pattern, RemoveFirst changes nothing. */
  lemma {:induction false} RemoveFirstAbsent(s: string, pat: string)
    requires pat != []
    requires !Occurs(pat, s)
    ensures RemoveFirst(s, pat) == s
    decreases |s|
  {
    if s != [] {
      RemoveFirstAbsent(s[1..], pat);
    }
  }

  /** ASCII lower-casing of one character. */
  function LowerChar(c: char): char {
    if 'A' <= c <= 'Z' then (c as int + 32) as char else c
  }

  /** ASCII lower-casing of a string, character by character. */
  function Lower(s: string): (r: string)
    ensures |r| == |s|
    ensures forall i :: 0 <= i < |s| ==> r[i] == LowerChar(s[i])
  {
    seq(|s|, i requires 0 <= i < |s| => LowerChar(s[i]))
  }
}
