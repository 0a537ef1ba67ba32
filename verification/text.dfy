/** The Python string primitives the translator relies on: the whitespace
    class behind `str.strip()`, `str.split(sep)`, `str.join`, the line
    splitting of `readlines()`, ASCII lower-casing and slicing with step 1. */
module PyText {

  /** Python's `str.isspace()`: the characters `str.strip()` removes. */
  predicate IsSpace(c: char) {
    || ('\t' <= c <= '\r')
    || ('\U{1C}' <= c <= '\U{1F}')
    || c == ' '
    || c == '\U{85}'
    || c == '\U{A0}'
    || c == '\U{1680}'
    || ('\U{2000}' <= c <= '\U{200A}')
    || c == '\U{2028}'
    || c == '\U{2029}'
    || c == '\U{202F}'
    || c == '\U{205F}'
    || c == '\U{3000}'
  }

  predicate AllSpace(s: string) {
    forall k :: 0 <= k < |s| ==> IsSpace(s[k])
  }

  /** A string `str.strip()` leaves as it is: empty, or with a non-space
      character at each end. */
  predicate IsStripped(s: string) {
    s == [] || (!IsSpace(s[0]) && !IsSpace(s[|s| - 1]))
  }

  /** The length of the longest all-space prefix of `s`. */
  function LeadingSpaces(s: string): (n: nat)
    ensures n <= |s|
    decreases |s|
  {
    if |s| == 0 || !IsSpace(s[0]) then 0 else 1 + LeadingSpaces(s[1..])
  }

  /** `LeadingSpaces` counts whitespace and stops at the first other
      character. */
  lemma {:induction false} LeadingSpacesSpec(s: string)
    ensures forall k :: 0 <= k < LeadingSpaces(s) ==> IsSpace(s[k])
    ensures LeadingSpaces(s) == |s| || !IsSpace(s[LeadingSpaces(s)])
    decreases |s|
  {
    if |s| > 0 && IsSpace(s[0]) {
      LeadingSpacesSpec(s[1..]);
      assert forall k :: 1 <= k < |s| ==> s[k] == s[1..][k - 1];
    }
  }

  /** The length of the longest all-space suffix of `s`. */
  function TrailingSpaces(s: string): (n: nat)
    ensures n <= |s|
    decreases |s|
  {
    if |s| == 0 || !IsSpace(s[|s| - 1]) then 0 else 1 + TrailingSpaces(s[..|s| - 1])
  }

  /** `TrailingSpaces` counts whitespace from the end and stops at the last
      other character. */
  lemma {:induction false} TrailingSpacesSpec(s: string)
    ensures forall k :: |s| - TrailingSpaces(s) <= k < |s| ==> IsSpace(s[k])
    ensures TrailingSpaces(s) == |s| || !IsSpace(s[|s| - TrailingSpaces(s) - 1])
    decreases |s|
  {
    if |s| > 0 && IsSpace(s[|s| - 1]) {
      TrailingSpacesSpec(s[..|s| - 1]);
      assert forall k :: 0 <= k < |s| - 1 ==> s[k] == s[..|s| - 1][k];
    }
  }

  /** Python's `s.strip()` with no argument. */
  function Strip(s: string): (r: string)
    ensures IsStripped(r)
    ensures |r| <= |s|
  {
    var t := s[LeadingSpaces(s)..];
    LeadingSpacesSpec(s);
    TrailingSpacesSpec(t);
    t[..|t| - TrailingSpaces(t)]
  }

  /** `s[a..b]` is surrounded by whitespace only. */
  predicate SpaceOutside(s: string, a: nat, b: nat) {
    && a <= b <= |s|
    && (forall k :: 0 <= k < a ==> IsSpace(s[k]))
    && (forall k :: b <= k < |s| ==> IsSpace(s[k]))
  }

  /** A piece of `s` that is itself stripped and has only whitespace around
      it is exactly what `strip()` returns. */
  lemma StripAt(s: string, a: nat, b: nat)
    requires SpaceOutside(s, a, b) && IsStripped(s[a..b])
    ensures Strip(s) == s[a..b]
  {
    var n := LeadingSpaces(s);
    LeadingSpacesSpec(s);
    TrailingSpacesSpec(s[n..]);
    if a == b {
      assert n == |s|;
      assert s[n..] == [];
    } else {
      assert s[a..b][0] == s[a];
      assert n == a;
      var t := s[a..];
      assert t[b - a - 1] == s[a..b][b - a - 1];
      forall k | b - a <= k < |t|
        ensures IsSpace(t[k])
      {
        assert t[k] == s[a + k];
      }
      var m := TrailingSpaces(t);
      assert m == |s| - b;
      assert t[..|t| - m] == s[a..b];
    }
  }

  /** Every string is its stripped form with only whitespace around it. */
  lemma StripSplits(s: string) returns (a: nat, b: nat)
    ensures SpaceOutside(s, a, b)
    ensures Strip(s) == s[a..b]
  {
    a := LeadingSpaces(s);
    var t := s[a..];
    var m := TrailingSpaces(t);
    LeadingSpacesSpec(s);
    TrailingSpacesSpec(t);
    b := |s| - m;
    forall k | b <= k < |s|
      ensures IsSpace(s[k])
    {
      assert s[k] == t[k - a];
    }
    assert t[..|t| - m] == s[a..b];
  }

  /** Whitespace added on either side stays outside the same piece. */
  lemma PadOutside(pre: string, s: string, post: string, a: nat, b: nat)
    requires AllSpace(pre) && AllSpace(post) && SpaceOutside(s, a, b)
    ensures SpaceOutside(pre + s + post, |pre| + a, |pre| + b)
    ensures (pre + s + post)[|pre| + a..|pre| + b] == s[a..b]
  {
    var x := pre + s + post;
    forall k | 0 <= k < |pre| + a
      ensures IsSpace(x[k])
    {
      if k < |pre| {
        assert x[k] == pre[k];
      } else {
        assert x[k] == s[k - |pre|];
      }
    }
    forall k | |pre| + b <= k < |x|
      ensures IsSpace(x[k])
    {
      if k < |pre| + |s| {
        assert x[k] == s[k - |pre|];
      } else {
        assert x[k] == post[k - |pre| - |s|];
      }
    }
    assert x[|pre| + a..|pre| + b] == s[a..b];
  }

  /** Whatever surrounds a stripped string, as long as it is all whitespace,
      is what `strip()` removes. */
  lemma StripPadded(pre: string, core: string, post: string)
    requires AllSpace(pre) && AllSpace(post) && IsStripped(core)
    ensures Strip(pre + core + post) == core
  {
    assert core[0..|core|] == core;
    PadOutside(pre, core, post, 0, |core|);
    StripAt(pre + core + post, |pre|, |pre| + |core|);
  }

  /** Text without surrounding whitespace strips to itself. */
  lemma StripStripped(s: string)
    requires IsStripped(s)
    ensures Strip(s) == s
  {
    StripAt(s, 0, |s|);
  }

  /** `strip()` is idempotent. */
  lemma StripIdempotent(s: string)
    ensures Strip(Strip(s)) == Strip(s)
  {
    StripStripped(Strip(s));
  }

  /** Adding whitespace on either side does not change what `strip()` gives. */
  lemma StripIgnoresPadding(pre: string, s: string, post: string)
    requires AllSpace(pre) && AllSpace(post)
    ensures Strip(pre + s + post) == Strip(s)
  {
    var a, b := StripSplits(s);
    PadOutside(pre, s, post, a, b);
    StripAt(pre + s + post, |pre| + a, |pre| + b);
  }

  /** A string whose first character is not whitespace strips to a string
      with the same first character. */
  lemma StripKeepsFirst(s: string)
    requires s != [] && !IsSpace(s[0])
    ensures Strip(s) != [] && Strip(s)[0] == s[0]
  {
    assert LeadingSpaces(s) == 0;
    assert s[LeadingSpaces(s)..] == s;
    TrailingSpacesSpec(s);
  }

  /** Python's `str.lower()` on one character, restricted to ASCII letters. */
  function LowerChar(c: char): (d: char)
    ensures 'A' <= c <= 'Z' ==> 'a' <= d <= 'z' && d as int - c as int == 32
    ensures !('A' <= c <= 'Z') ==> d == c
  {
    if 'A' <= c <= 'Z' then (c as int + 32) as char else c
  }

  /** `str.lower()` with ASCII case mapping. */
  function Lower(s: string): (r: string)
    ensures |r| == |s|
    ensures forall k :: 0 <= k < |s| ==> r[k] == LowerChar(s[k])
  {
    seq(|s|, k requires 0 <= k < |s| => LowerChar(s[k]))
  }

  /** Python's normalisation of one slice bound (step 1): a negative bound
      counts from the end, then the bound is clamped into `[0, len]`. */
  function SliceBound(len: nat, i: int): (b: nat)
    ensures b <= len
    ensures 0 <= i <= len ==> b == i
    ensures i > len ==> b == len
    ensures i < 0 && i + len >= 0 ==> b == i + len
    ensures i + len < 0 ==> b == 0
  {
    var j := if i < 0 then i + len else i;
    if j < 0 then 0 else if j > len then len else j
  }

  /** Python's `s[i:j]`: never fails, whatever the bounds. */
  function PySlice(s: string, i: int, j: int): (r: string)
    ensures |r| <= |s|
    ensures SliceBound(|s|, i) < SliceBound(|s|, j) ==> |r| == SliceBound(|s|, j) - SliceBound(|s|, i)
    ensures SliceBound(|s|, i) >= SliceBound(|s|, j) ==> r == []
  {
    var a := SliceBound(|s|, i);
    var b := SliceBound(|s|, j);
    if a >= b then [] else s[a..b]
  }

  /** Reference definition of a slice: the characters of `s` at the positions
      `k` with `lo <= k < hi`, in order. */
  function Pick(s: string, lo: int, hi: int): (r: string)
    ensures |r| <= |s|
    decreases |s|
  {
    if |s| == 0 then []
    else Pick(s[..|s| - 1], lo, hi) + (if lo <= |s| - 1 < hi then [s[|s| - 1]] else [])
  }

  /** A slice bound after Python counts a negative one from the end. */
  function FromEnd(i: int, len: nat): int {
    if i < 0 then i + len else i
  }

  function Clamp(x: int, len: nat): nat {
    if x < 0 then 0 else if x > len then len else x
  }

  /** Picking by position is a contiguous piece between the clamped bounds. */
  lemma {:induction false} PickIsRange(s: string, lo: int, hi: int)
    ensures Pick(s, lo, hi)
            == (if Clamp(lo, |s|) >= Clamp(hi, |s|) then [] else s[Clamp(lo, |s|)..Clamp(hi, |s|)])
    decreases |s|
  {
    if |s| > 0 {
      var n := |s| - 1;
      var s' := s[..n];
      PickIsRange(s', lo, hi);
      var a', b' := Clamp(lo, n), Clamp(hi, n);
      var a, b := Clamp(lo, n + 1), Clamp(hi, n + 1);
      if lo <= n < hi {
        assert a == a' && b == n + 1 && b' == n;
        assert s[a..b] == s'[a'..b'] + [s[n]];
      } else if hi <= n {
        assert b == b';
        if a < b {
          assert a == a';
          assert s[a..b] == s'[a'..b'];
        }
      } else {
        assert a' == n && a == n + 1;
      }
    }
  }

  /** Python's slice selects exactly the positions between the bounds once a
      negative bound has been counted from the end: out-of-range positions
      are simply absent, which is why slicing never fails. */
  lemma PySliceSelects(s: string, i: int, j: int)
    ensures PySlice(s, i, j) == Pick(s, FromEnd(i, |s|), FromEnd(j, |s|))
  {
    PickIsRange(s, FromEnd(i, |s|), FromEnd(j, |s|));
  }

  /** Python's `s.split(sep)` for a one-character separator. */
  function Split(s: string, sep: char): (r: seq<string>)
    ensures |r| >= 1
    decreases |s|
  {
    if |s| == 0 then [""]
    else
      var rest := Split(s[1..], sep);
      if s[0] == sep then [""] + rest
      else [[s[0]] + rest[0]] + rest[1..]
  }

  /** No piece of a split holds the separator, and the pieces together are
      one longer than the number of separators. */
  lemma {:induction false} SplitPieces(s: string, sep: char)
    ensures forall k :: 0 <= k < |Split(s, sep)| ==> sep !in Split(s, sep)[k]
    ensures |Split(s, sep)| == Count(s, sep) + 1
    decreases |s|
  {
    if |s| > 0 {
      SplitPieces(s[1..], sep);
      var rest := Split(s[1..], sep);
      if s[0] != sep {
        assert forall k :: 1 <= k < |Split(s, sep)| ==> Split(s, sep)[k] == rest[k];
      }
    }
  }

  /** The number of occurrences of `c` in `s`. */
  function Count(s: string, c: char): nat
    decreases |s|
  {
    if |s| == 0 then 0 else (if s[0] == c then 1 else 0) + Count(s[1..], c)
  }

  /** Python's `sep.join(parts)`. */
  function Join(parts: seq<string>, sep: char): string
    decreases |parts|
  {
    if |parts| == 0 then ""
    else if |parts| == 1 then parts[0]
    else parts[0] + [sep] + Join(parts[1..], sep)
  }

  /** Splitting at a separator-free prefix followed by the separator yields
      that prefix and then the pieces of the rest. */
  lemma {:induction false} SplitCons(p: string, sep: char, rest: string)
    requires sep !in p
    ensures Split(p + [sep] + rest, sep) == [p] + Split(rest, sep)
    decreases |p|
  {
    var s := p + [sep] + rest;
    if |p| == 0 {
      assert s[1..] == rest;
    } else {
      assert s[1..] == p[1..] + [sep] + rest;
      SplitCons(p[1..], sep, rest);
      assert [s[0]] + p[1..] == p;
    }
  }

  /** A separator-free string splits into itself alone. */
  lemma {:induction false} SplitNone(s: string, sep: char)
    requires sep !in s
    ensures Split(s, sep) == [s]
    decreases |s|
  {
    if |s| > 0 {
      SplitNone(s[1..], sep);
      assert [s[0]] + s[1..] == s;
    }
  }

  /** Joining the pieces of a split gives back the original string. */
  lemma {:induction false} JoinSplit(s: string, sep: char)
    ensures Join(Split(s, sep), sep) == s
    decreases |s|
  {
    if |s| > 0 {
      var rest := Split(s[1..], sep);
      JoinSplit(s[1..], sep);
      if s[0] == sep {
        assert Join([""] + rest, sep) == "" + [sep] + Join(rest, sep);
        assert s == [s[0]] + s[1..];
      } else {
        var r := [[s[0]] + rest[0]] + rest[1..];
        assert r[1..] == rest[1..];
        if |rest| == 1 {
          assert s == [s[0]] + rest[0];
        } else {
          assert Join(rest, sep) == rest[0] + [sep] + Join(rest[1..], sep);
          assert s == [s[0]] + s[1..];
        }
      }
    }
  }

  /** Splitting a join of separator-free pieces gives back the pieces. */
  lemma {:induction false} SplitJoin(parts: seq<string>, sep: char)
    requires |parts| >= 1
    requires forall k :: 0 <= k < |parts| ==> sep !in parts[k]
    ensures Split(Join(parts, sep), sep) == parts
    decreases |parts|
  {
    if |parts| == 1 {
      SplitNone(parts[0], sep);
    } else {
      SplitJoin(parts[1..], sep);
      SplitCons(parts[0], sep, Join(parts[1..], sep));
      assert [parts[0]] + parts[1..] == parts;
    }
  }

  /** Joining two non-empty lists is joining each and putting one separator
      between them. */
  lemma {:induction false} JoinAppend(a: seq<string>, b: seq<string>, sep: char)
    requires |a| >= 1 && |b| >= 1
    ensures Join(a + b, sep) == Join(a, sep) + [sep] + Join(b, sep)
    decreases |a|
  {
    if |a| == 1 {
      assert (a + b)[1..] == b;
    } else {
      assert (a + b)[1..] == a[1..] + b;
      JoinAppend(a[1..], b, sep);
    }
  }

  /** The concatenation of a list of strings. */
  function Concat(parts: seq<string>): string
    decreases |parts|
  {
    if |parts| == 0 then "" else parts[0] + Concat(parts[1..])
  }

  /** One element of `readlines()`: non-empty, with a newline at most as its
      last character. */
  predicate IsLine(l: string) {
    |l| > 0 && forall j :: 0 <= j < |l| - 1 ==> l[j] != '\n'
  }

  /** Python's `f.readlines()` on the text of a file: the text cut after
      every newline, each line keeping its newline; a final line without one
      is kept as it is, and empty text has no lines. */
  function ReadLines(text: string): (r: seq<string>)
    ensures Concat(r) == text
    ensures forall k :: 0 <= k < |r| ==> IsLine(r[k])
    ensures forall k :: 0 <= k < |r| - 1 ==> |r[k]| > 0 && r[k][|r[k]| - 1] == '\n'
    decreases |text|
  {
    if |text| == 0 then []
    else
      var rest := ReadLines(text[1..]);
      if text[0] == '\n' || |rest| == 0 then
        assert Concat([[text[0]]] + rest) == [text[0]] + Concat(rest);
        [[text[0]]] + rest
      else
        var r := [[text[0]] + rest[0]] + rest[1..];
        assert Concat(rest) == rest[0] + Concat(rest[1..]);
        assert Concat(r) == [text[0]] + rest[0] + Concat(rest[1..]);
        assert IsLine(r[0]) by {
          assert IsLine(rest[0]);
          forall j | 0 <= j < |r[0]| - 1
            ensures r[0][j] != '\n'
          {
            if j > 0 {
              assert r[0][j] == rest[0][j - 1];
            }
          }
        }
        r
  }

  /** A line that ends in a newline is cut off exactly there. */
  lemma {:induction false} ReadLinesCons(a: string, rest: string)
    requires '\n' !in a
    ensures ReadLines(a + "\n" + rest) == [a + "\n"] + ReadLines(rest)
    decreases |a|
  {
    var text := a + "\n" + rest;
    if |a| == 0 {
      assert text[1..] == rest;
    } else {
      assert text[1..] == a[1..] + "\n" + rest;
      ReadLinesCons(a[1..], rest);
      assert [text[0]] + (a[1..] + "\n") == a + "\n";
    }
  }

  /** Text without a newline is one line, or none when it is empty. */
  lemma {:induction false} ReadLinesLast(a: string)
    requires '\n' !in a
    ensures ReadLines(a) == if a == [] then [] else [a]
    decreases |a|
  {
    if |a| > 0 {
      assert a[0] != '\n';
      ReadLinesLast(a[1..]);
      if |a| == 1 {
        assert a[1..] == [];
        assert a == [a[0]];
      } else {
        assert [a[0]] + a[1..] == a;
      }
    }
  }

  /** The position of the first occurrence of `c` in `s`. */
  function FirstIndex(s: string, c: char): (i: nat)
    requires c in s
    ensures i < |s| && s[i] == c && c !in s[..i]
  {
    if s[0] == c then 0
    else
      var j := FirstIndex(s[1..], c);
      assert s[..1 + j] == [s[0]] + s[1..][..j];
      1 + j
  }
}
