/** The three JavaScript string methods the modelled code relies on:
    `startsWith`, `includes` and `split` by a one-character separator,
    with their ECMAScript behaviour on edge cases (an empty string splits
    into one empty part, a leading or doubled separator yields empty parts). */
module JsString {

  /** `s.startsWith(prefix)`. */
  predicate StartsWith(s: string, prefix: string)
    ensures StartsWith(s, prefix) <==>
      |prefix| <= |s| && forall k :: 0 <= k < |prefix| ==> s[k] == prefix[k]
  {
    |prefix| <= |s| && s[..|prefix|] == prefix
  }

  /** `s.includes(sub)`: `sub` occurs in `s` at some offset. */
  predicate Includes(s: string, sub: string)
    decreases |s|
  {
    StartsWith(s, sub) || (|s| > 0 && Includes(s[1..], sub))
  }

  /** `s.split(sep)` for a one-character separator. */
  function Split(s: string, sep: char): (parts: seq<string>)
    ensures |parts| >= 1
    decreases |s|
  {
    if |s| == 0 then [""]
    else if s[0] == sep then [""] + Split(s[1..], sep)
    else
      var rest := Split(s[1..], sep);
      [[s[0]] + rest[0]] + rest[1..]
  }

  /** `parts.join(sep)`, the inverse of `Split`. */
  function Join(parts: seq<string>, sep: char): string
    requires |parts| >= 1
    decreases |parts|
  {
    if |parts| == 1 then parts[0] else parts[0] + [sep] + Join(parts[1..], sep)
  }

  /** `parts.pop()` on a non-empty array: its last element. */
  function Last(parts: seq<string>): string
    requires |parts| >= 1
  {
    parts[|parts| - 1]
  }

  /** Splitting loses nothing: joining the parts back gives the original string. */
  lemma {:induction false} SplitJoin(s: string, sep: char)
    ensures Join(Split(s, sep), sep) == s
    decreases |s|
  {
    if |s| > 0 {
      var parts, rest := Split(s, sep), Split(s[1..], sep);
      SplitJoin(s[1..], sep);
      assert s == [s[0]] + s[1..];
      if s[0] == sep {
        assert parts == [""] + rest;
        assert parts[1..] == rest;
        assert Join(parts, sep) == "" + [sep] + Join(rest, sep);
      } else if |rest| == 1 {
        assert parts == [[s[0]] + rest[0]];
      } else {
        assert parts == [[s[0]] + rest[0]] + rest[1..];
        assert parts[1..] == rest[1..];
        assert Join(rest, sep) == rest[0] + [sep] + Join(rest[1..], sep);
        assert Join(parts, sep) == ([s[0]] + rest[0]) + [sep] + Join(rest[1..], sep);
      }
    }
  }

  /** No part of a split contains the separator. */
  lemma {:induction false} SplitPartsFree(s: string, sep: char)
    ensures forall k :: 0 <= k < |Split(s, sep)| ==> sep !in Split(s, sep)[k]
    decreases |s|
  {
    if |s| > 0 {
      SplitPartsFree(s[1..], sep);
      var parts, rest := Split(s, sep), Split(s[1..], sep);
      if s[0] != sep {
        forall k | 0 <= k < |parts| ensures sep !in parts[k] {
          if k == 0 {
            assert parts[0] == [s[0]] + rest[0];
          } else {
            assert parts[k] == rest[k];
          }
        }
      } else {
        forall k | 0 <= k < |parts| ensures sep !in parts[k] {
          if k > 0 {
            assert parts[k] == rest[k - 1];
          }
        }
      }
    }
  }

  /** A string without the separator splits into itself alone. */
  lemma {:induction false} SplitWithoutSep(s: string, sep: char)
    requires sep !in s
    ensures Split(s, sep) == [s]
    decreases |s|
  {
    if |s| > 0 {
      assert sep !in s[1..] by {
        forall k | 0 <= k < |s[1..]| ensures s[1..][k] != sep { assert s[1..][k] == s[k + 1]; }
      }
      SplitWithoutSep(s[1..], sep);
      assert s == [s[0]] + s[1..];
    }
  }

  /** Splitting `a + sep + b`, where `a` has no separator, gives `a` followed by the parts of `b`. */
  lemma {:induction false} SplitAfterSep(a: string, b: string, sep: char)
    requires sep !in a
    ensures Split(a + [sep] + b, sep) == [a] + Split(b, sep)
    decreases |a|
  {
    var s := a + [sep] + b;
    if |a| == 0 {
      assert s == [sep] + b;
      assert s[1..] == b;
    } else {
      var a' := a[1..];
      assert sep !in a' by {
        forall k | 0 <= k < |a'| ensures a'[k] != sep { assert a'[k] == a[k + 1]; }
      }
      assert s[1..] == a' + [sep] + b;
      SplitAfterSep(a', b, sep);
      assert a == [a[0]] + a';
    }
  }

  /** An occurrence at the front is an occurrence. */
  lemma {:induction false} IncludesInfix(a: string, sub: string, b: string)
    ensures Includes(a + sub + b, sub)
    decreases |a|
  {
    var s := a + sub + b;
    if |a| == 0 {
      assert s[..|sub|] == sub;
    } else {
      assert s[1..] == a[1..] + sub + b;
      IncludesInfix(a[1..], sub, b);
    }
  }

  /** `Includes` holds exactly when `sub` occurs in `s` at some offset `i`. */
  lemma {:induction false} IncludesOccurs(s: string, sub: string)
    ensures Includes(s, sub) <==> exists i :: 0 <= i <= |s| - |sub| && StartsWith(s[i..], sub)
    decreases |s|
  {
    assert s[0..] == s;
    if Includes(s, sub) && !StartsWith(s, sub) {
      IncludesOccurs(s[1..], sub);
      var i :| 0 <= i <= |s| - 1 - |sub| && StartsWith(s[1..][i..], sub);
      assert s[1..][i..] == s[i + 1..];
    }
    if !Includes(s, sub) {
      forall i | 0 <= i <= |s| - |sub| ensures !StartsWith(s[i..], sub) {
        if i > 0 {
          IncludesOccurs(s[1..], sub);
          assert s[1..][i - 1..] == s[i..];
        }
      }
    }
  }

  /** How the split of `s` relates to the split of its tail. */
  lemma SplitTail(s: string, sep: char)
    requires |s| > 0
    ensures s[0] == sep ==> Split(s, sep) == [""] + Split(s[1..], sep)
    ensures s[0] != sep ==> |Split(s, sep)| == |Split(s[1..], sep)|
    ensures s[0] != sep ==> forall k :: 1 <= k < |Split(s, sep)| ==> Split(s, sep)[k] == Split(s[1..], sep)[k]
  {
  }

  /** A string that opens with `sep + w + sep` has `w` as its second part. */
  lemma SplitDelimitedFront(w: string, rest: string, sep: char)
    requires sep !in w
    ensures Split([sep] + w + [sep] + rest, sep) == ["", w] + Split(rest, sep)
  {
    assert [sep] + w + [sep] + rest == "" + [sep] + (w + [sep] + rest);
    SplitAfterSep("", w + [sep] + rest, sep);
    SplitAfterSep(w, rest, sep);
  }

  /** If `sep + w + sep` occurs in `s` (with `w` free of `sep`), then `w` is one of the
      inner parts of `s.split(sep)`: neither the first nor the last. */
  lemma {:induction false} IncludesDelimited(s: string, w: string, sep: char)
    requires sep !in w
    requires Includes(s, [sep] + w + [sep])
    ensures exists k :: 1 <= k < |Split(s, sep)| - 1 && Split(s, sep)[k] == w
    decreases |s|
  {
    var sub := [sep] + w + [sep];
    var parts := Split(s, sep);
    if StartsWith(s, sub) {
      var rest := s[|sub|..];
      assert s == sub + rest;
      SplitDelimitedFront(w, rest, sep);
      assert parts[1] == w;
    } else {
      IncludesDelimited(s[1..], w, sep);
      var rest := Split(s[1..], sep);
      var k :| 1 <= k < |rest| - 1 && rest[k] == w;
      SplitTail(s, sep);
      if s[0] == sep {
        assert parts[k + 1] == rest[k];
      } else {
        assert parts[k] == rest[k];
      }
    }
  }
}
