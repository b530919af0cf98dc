/** The JavaScript string operations the portal relies on: `trim`, `toLowerCase`,
    character-class `replace`, `includes`, `split` on one character, `substring`
    and the decimal rendering of an integer inside a template literal. Strings are
    sequences of Unicode code points. */
module JsString {

  /** The code points matched by `\s` and removed by `trim`: WhiteSpace and
      LineTerminator of ECMA-262 (sections 12.2 and 12.3 of the 2023 edition),
      with the Unicode Zs category written out. */
  predicate IsWhiteSpace(c: char) {
    if c < '\U{00A0}' then
      ('\t' <= c <= '\r') || c == ' '   // TAB, LF, VT, FF, CR and SPACE
    else
      || c == '\U{00A0}' || c == '\U{1680}' || ('\U{2000}' <= c <= '\U{200A}')
      || c == '\U{2028}' || c == '\U{2029}' || c == '\U{202F}' || c == '\U{205F}'
      || c == '\U{3000}' || c == '\U{FEFF}'
  }

  /** `s` with its leading white space removed. */
  function TrimStart(s: string): (r: string)
    ensures |r| <= |s| && r == s[|s| - |r|..]
    ensures forall k :: 0 <= k < |s| - |r| ==> IsWhiteSpace(s[k])
    ensures r == [] || !IsWhiteSpace(r[0])
    ensures s != [] && IsWhiteSpace(s[0]) ==> |r| < |s|
  {
    if s != [] && IsWhiteSpace(s[0]) then TrimStart(s[1..]) else s
  }

  /** `s` with its trailing white space removed. */
  function TrimEnd(s: string): (r: string)
    ensures |r| <= |s| && r == s[..|r|]
    ensures forall k :: |r| <= k < |s| ==> IsWhiteSpace(s[k])
    ensures r == [] || !IsWhiteSpace(r[|r| - 1])
  {
    if s != [] && IsWhiteSpace(s[|s| - 1]) then TrimEnd(s[..|s| - 1]) else s
  }

  /** `String.prototype.trim`. */
  function Trim(s: string): (r: string)
    ensures |r| <= |s|
    ensures r == [] || (!IsWhiteSpace(r[0]) && !IsWhiteSpace(r[|r| - 1]))
    ensures s == [] || (!IsWhiteSpace(s[0]) && !IsWhiteSpace(s[|s| - 1])) ==> r == s
  {
    TrimEnd(TrimStart(s))
  }

  /** Text that neither starts nor ends with white space is left as it is. */
  lemma TrimLeavesUnpadded(s: string)
    requires s != [] && !IsWhiteSpace(s[0]) && !IsWhiteSpace(s[|s| - 1])
    ensures Trim(s) == s
  {
  }

  /** Whether `s` holds a character outside white space. */
  predicate HasVisibleChar(s: string) {
    s != [] && (!IsWhiteSpace(s[0]) || HasVisibleChar(s[1..]))
  }

  lemma {:induction false} HasVisibleCharAt(s: string)
    ensures HasVisibleChar(s) <==> exists i :: 0 <= i < |s| && !IsWhiteSpace(s[i])
  {
    if s != [] {
      HasVisibleCharAt(s[1..]);
      if exists i :: 0 <= i < |s| && !IsWhiteSpace(s[i]) {
        var i :| 0 <= i < |s| && !IsWhiteSpace(s[i]);
        if i > 0 {
          assert s[1..][i - 1] == s[i];
        }
      }
      if HasVisibleChar(s[1..]) {
        var i :| 0 <= i < |s[1..]| && !IsWhiteSpace(s[1..][i]);
        assert s[i + 1] == s[1..][i];
      }
    }
  }

  /** `s.trim()` is non-empty exactly when `s` holds a character outside white space. */
  lemma TrimEmptyUnlessVisible(s: string)
    ensures Trim(s) != "" <==> HasVisibleChar(s)
  {
    HasVisibleCharAt(s);
    var t := TrimStart(s);
    var r := TrimEnd(t);
    var offset := |s| - |t|;
    if r != [] {
      assert s[offset] == t[0] == r[0];
    }
    if exists i :: 0 <= i < |s| && !IsWhiteSpace(s[i]) {
      var i :| 0 <= i < |s| && !IsWhiteSpace(s[i]);
      assert offset <= i;
      assert t[i - offset] == s[i];
      assert i - offset < |r|;
    }
  }

  /** Lower-case mapping of one character (ASCII letters only; see README). */
  function LowerChar(c: char): (d: char)
    ensures ('A' <= c <= 'Z') == (d != c)
    ensures d != c ==> 'a' <= d <= 'z'
  {
    if 'A' <= c <= 'Z' then (c as int + 32) as char else c
  }

  /** A replacement that maps every character on its own, as `replace(/[..]/g, x)` does
      when `x` is one character. */
  function MapChars(s: string, f: char -> char): (r: string)
    ensures |r| == |s|
    ensures forall i :: 0 <= i < |s| ==> r[i] == f(s[i])
  {
    if s == [] then [] else [f(s[0])] + MapChars(s[1..], f)
  }

  /** `String.prototype.toLowerCase`. */
  function ToLowerCase(s: string): (r: string)
    ensures |r| == |s|
  {
    MapChars(s, LowerChar)
  }

  /** `replace(/[^..]/g, '')`: the characters of `s` that `keep` accepts, in order. */
  function Filter(s: string, keep: char -> bool): (r: string)
    ensures |r| <= |s|
    ensures forall i :: 0 <= i < |r| ==> keep(r[i]) && r[i] in s
  {
    if s == [] then [] else (if keep(s[0]) then [s[0]] else []) + Filter(s[1..], keep)
  }

  /** No two consecutive spaces. */
  predicate NoAdjacentSpaces(s: string) {
    forall i :: 0 <= i < |s| - 1 ==> s[i] != ' ' || s[i + 1] != ' '
  }

  /** Two strings without double spaces, not both meeting at a space, glue into one. */
  lemma NoAdjacentSpacesAppend(a: string, b: string)
    requires NoAdjacentSpaces(a) && NoAdjacentSpaces(b)
    requires a == [] || b == [] || a[|a| - 1] != ' ' || b[0] != ' '
    ensures NoAdjacentSpaces(a + b)
  {
    var s := a + b;
    forall i | 0 <= i < |s| - 1 ensures s[i] != ' ' || s[i + 1] != ' ' {
      if i + 1 < |a| {
        assert s[i] == a[i] && s[i + 1] == a[i + 1];
      } else if i >= |a| {
        assert s[i] == b[i - |a|] && s[i + 1] == b[i - |a| + 1];
      }
    }
  }

  /** `replace(/\s+/g, ' ')`: every maximal run of white space becomes one space. */
  function CollapseWhiteSpace(s: string): (r: string)
    ensures |r| <= |s|
    ensures forall i :: 0 <= i < |r| ==> r[i] == ' ' || !IsWhiteSpace(r[i])
    ensures NoAdjacentSpaces(r)
    ensures s != [] ==> r != [] && (IsWhiteSpace(s[0]) <==> r[0] == ' ')
    ensures s != [] && !IsWhiteSpace(s[0]) ==> r[0] == s[0]
    decreases |s|
  {
    if s == [] then []
    else if IsWhiteSpace(s[0]) then
      var rest := CollapseWhiteSpace(TrimStart(s));
      NoAdjacentSpacesCons(' ', rest);
      [' '] + rest
    else
      var rest := CollapseWhiteSpace(s[1..]);
      NoAdjacentSpacesCons(s[0], rest);
      [s[0]] + rest
  }

  lemma NoAdjacentSpacesCons(c: char, s: string)
    requires NoAdjacentSpaces(s)
    requires c != ' ' || s == [] || s[0] != ' '
    ensures NoAdjacentSpaces([c] + s)
  {
    var t := [c] + s;
    forall i | 0 <= i < |t| - 1 ensures t[i] != ' ' || t[i + 1] != ' ' {
      if i > 0 {
        assert t[i] == s[i - 1] && t[i + 1] == s[i];
      }
    }
  }

  /** Every character of the collapsed text other than a space comes from the input. */
  lemma {:induction false} CollapseKeepsInputChars(s: string)
    ensures forall i :: 0 <= i < |CollapseWhiteSpace(s)| && CollapseWhiteSpace(s)[i] != ' ' ==>
      CollapseWhiteSpace(s)[i] in s
    decreases |s|
  {
    if s != [] {
      var r := CollapseWhiteSpace(s);
      if IsWhiteSpace(s[0]) {
        var t := TrimStart(s);
        CollapseKeepsInputChars(t);
        assert r == [' '] + CollapseWhiteSpace(t);
        forall i | 0 <= i < |r| && r[i] != ' ' ensures r[i] in s {
          assert r[i] in t;
        }
      } else {
        CollapseKeepsInputChars(s[1..]);
        assert r == [s[0]] + CollapseWhiteSpace(s[1..]);
        forall i | 1 <= i < |r| && r[i] != ' ' ensures r[i] in s {
          assert r[i] in s[1..];
        }
      }
    }
  }

  /** `replace(/\s+/g, ' ')` read one character at a time: a white-space character
      writes a space when it opens a run (`inRun` is false) and nothing inside one;
      any other character is copied and ends the run. */
  function CollapseScan(s: string, inRun: bool): string {
    if s == [] then []
    else if IsWhiteSpace(s[0]) then (if inRun then [] else [' ']) + CollapseScan(s[1..], true)
    else [s[0]] + CollapseScan(s[1..], false)
  }

  /** Inside a run, the scan passes over the rest of the run's white space. */
  lemma {:induction false} CollapseScanInRun(s: string)
    ensures CollapseScan(s, true) == CollapseScan(TrimStart(s), false)
    decreases |s|
  {
    if s != [] && IsWhiteSpace(s[0]) {
      CollapseScanInRun(s[1..]);
    }
  }

  /** Collapsing agrees with the scan: each maximal run of white space becomes one
      space where the run stood, and every other character is kept in place. */
  lemma {:induction false} CollapseMatchesScan(s: string)
    ensures CollapseWhiteSpace(s) == CollapseScan(s, false)
    decreases |s|
  {
    if s != [] {
      if IsWhiteSpace(s[0]) {
        CollapseMatchesScan(TrimStart(s));
        CollapseScanInRun(s[1..]);
      } else {
        CollapseMatchesScan(s[1..]);
      }
    }
  }

  predicate IsNotWhiteSpace(c: char) {
    !IsWhiteSpace(c)
  }

  lemma {:induction false} CollapseScanKeepsVisibleChars(s: string, inRun: bool)
    ensures Filter(CollapseScan(s, inRun), IsNotWhiteSpace) == Filter(s, IsNotWhiteSpace)
    decreases |s|
  {
    if s != [] {
      var head: string := if IsWhiteSpace(s[0]) then (if inRun then [] else [' ']) else [s[0]];
      CollapseScanKeepsVisibleChars(s[1..], IsWhiteSpace(s[0]));
      assert CollapseScan(s, inRun) == head + CollapseScan(s[1..], IsWhiteSpace(s[0]));
      FilterAppend(head, CollapseScan(s[1..], IsWhiteSpace(s[0])), IsNotWhiteSpace);
    }
  }

  /** Collapsing keeps every character other than white space, in order. */
  lemma CollapseKeepsVisibleChars(s: string)
    ensures Filter(CollapseWhiteSpace(s), IsNotWhiteSpace) == Filter(s, IsNotWhiteSpace)
  {
    CollapseMatchesScan(s);
    CollapseScanKeepsVisibleChars(s, false);
  }

  /** `a` can be obtained from `b` by deleting characters. */
  predicate IsSubsequence(a: string, b: string)
    decreases |b|
  {
    a == [] || (b != [] && ((a[0] == b[0] && IsSubsequence(a[1..], b[1..])) || IsSubsequence(a, b[1..])))
  }

  /** `s.includes(w)`. */
  predicate Contains(s: string, w: string) {
    exists i :: 0 <= i <= |s| && w <= s[i..]
  }

  /** The inverse of `split`: the parts glued together with `sep` between them. */
  function Join(parts: seq<string>, sep: char): string
    requires |parts| >= 1
  {
    if |parts| == 1 then parts[0] else parts[0] + [sep] + Join(parts[1..], sep)
  }

  /** `s.split(sep)` for a one-character separator: the maximal pieces between
      occurrences of `sep`, including empty ones; always at least one piece. */
  function Split(s: string, sep: char): (parts: seq<string>)
    ensures |parts| >= 1
    ensures forall k :: 0 <= k < |parts| ==> sep !in parts[k]
    ensures Join(parts, sep) == s
  {
    if s == [] then [""]
    else if s[0] == sep then [""] + Split(s[1..], sep)
    else
      var rest := Split(s[1..], sep);
      JoinExtendsFirst(s[0], rest, sep);
      [[s[0]] + rest[0]] + rest[1..]
  }

  /** Prepending a character to the first part prepends it to the joined string. */
  lemma {:induction false} JoinExtendsFirst(c: char, parts: seq<string>, sep: char)
    requires |parts| >= 1
    ensures Join([[c] + parts[0]] + parts[1..], sep) == [c] + Join(parts, sep)
  {
    var moved := [[c] + parts[0]] + parts[1..];
    assert moved[1..] == parts[1..];
  }

  /** A string without `sep` splits into itself alone. */
  lemma {:induction false} SplitWithoutSeparator(w: string, sep: char)
    requires sep !in w
    ensures Split(w, sep) == [w]
    decreases |w|
  {
    if w != [] {
      assert sep !in w[1..];
      SplitWithoutSeparator(w[1..], sep);
      assert [w[0]] + w[1..] == w;
    }
  }

  /** Splitting stops at the first separator. */
  lemma {:induction false} SplitAtFirstSeparator(w: string, t: string, sep: char)
    requires sep !in w
    ensures Split(w + [sep] + t, sep) == [w] + Split(t, sep)
    decreases |w|
  {
    if w == [] {
      assert w + [sep] + t == [sep] + t;
      assert ([sep] + t)[1..] == t;
    } else {
      var s := w + [sep] + t;
      assert s[0] == w[0] && s[1..] == w[1..] + [sep] + t;
      assert sep !in w[1..];
      SplitAtFirstSeparator(w[1..], t, sep);
      assert [w[0]] + w[1..] == w;
    }
  }

  /** Round trip: splitting the joined parts gives the parts back, when no part
      contains the separator. */
  lemma {:induction false} SplitJoin(parts: seq<string>, sep: char)
    requires |parts| >= 1
    requires forall k :: 0 <= k < |parts| ==> sep !in parts[k]
    ensures Split(Join(parts, sep), sep) == parts
    decreases |parts|
  {
    if |parts| == 1 {
      SplitWithoutSeparator(parts[0], sep);
    } else {
      SplitAtFirstSeparator(parts[0], Join(parts[1..], sep), sep);
      SplitJoin(parts[1..], sep);
      assert [parts[0]] + parts[1..] == parts;
    }
  }

  /** Pieces of a `Filter` of a concatenation. */
  lemma {:induction false} FilterAppend(a: string, b: string, keep: char -> bool)
    ensures Filter(a + b, keep) == Filter(a, keep) + Filter(b, keep)
    decreases |a|
  {
    if a != [] {
      assert (a + b)[0] == a[0] && (a + b)[1..] == a[1..] + b;
      FilterAppend(a[1..], b, keep);
    } else {
      assert a + b == b;
    }
  }

  /** `Filter` leaves a string alone when it keeps every character. */
  lemma {:induction false} FilterKeepsAll(s: string, keep: char -> bool)
    requires forall i :: 0 <= i < |s| ==> keep(s[i])
    ensures Filter(s, keep) == s
    decreases |s|
  {
    if s != [] {
      FilterKeepsAll(s[1..], keep);
      assert [s[0]] + s[1..] == s;
    }
  }

  /** `Filter` keeps every accepted character as often as it occurs, and nothing else. */
  lemma {:induction false} FilterCounts(s: string, keep: char -> bool, c: char)
    ensures multiset(Filter(s, keep))[c] == if keep(c) then multiset(s)[c] else 0
    decreases |s|
  {
    if s != [] {
      FilterCounts(s[1..], keep, c);
      assert s == [s[0]] + s[1..];
    }
  }

  /** `Filter` keeps the order: its result is a subsequence of its input. */
  lemma {:induction false} FilterIsSubsequence(s: string, keep: char -> bool)
    ensures IsSubsequence(Filter(s, keep), s)
    decreases |s|
  {
    if s != [] {
      FilterIsSubsequence(s[1..], keep);
      var r := Filter(s, keep);
      if keep(s[0]) {
        assert r == [s[0]] + Filter(s[1..], keep);
        assert r[0] == s[0] && r[1..] == Filter(s[1..], keep);
      } else {
        assert r == Filter(s[1..], keep);
      }
    }
  }

  /** Collapsing changes nothing in a string whose only white space is single spaces. */
  lemma {:induction false} CollapseKeepsSingleSpaces(s: string)
    requires forall i :: 0 <= i < |s| ==> s[i] == ' ' || !IsWhiteSpace(s[i])
    requires NoAdjacentSpaces(s)
    ensures CollapseWhiteSpace(s) == s
    decreases |s|
  {
    if s != [] {
      var rest := s[1..];
      NoAdjacentSpacesTail(s);
      CollapseKeepsSingleSpaces(rest);
      if IsWhiteSpace(s[0]) {
        assert TrimStart(s) == rest by {
          if rest != [] {
            assert rest[0] == s[1] != ' ';
            assert !IsWhiteSpace(rest[0]);
          }
        }
      }
      assert [s[0]] + rest == s;
    }
  }

  lemma NoAdjacentSpacesTail(s: string)
    requires s != [] && NoAdjacentSpaces(s)
    ensures NoAdjacentSpaces(s[1..])
  {
    forall i | 0 <= i < |s[1..]| - 1 ensures s[1..][i] != ' ' || s[1..][i + 1] != ' ' {
      assert s[1..][i] == s[i + 1] && s[1..][i + 1] == s[i + 2];
    }
  }

  /** `s.includes(w)` survives putting text before or after `s`. */
  lemma ContainsInAppend(a: string, b: string, w: string)
    ensures Contains(a, w) ==> Contains(a + b, w)
    ensures Contains(b, w) ==> Contains(a + b, w)
  {
    if Contains(a, w) {
      var i :| 0 <= i <= |a| && w <= a[i..];
      assert w <= (a + b)[i..] by {
        assert forall k :: 0 <= k < |w| ==> (a + b)[i..][k] == a[i..][k];
      }
    }
    if Contains(b, w) {
      var i :| 0 <= i <= |b| && w <= b[i..];
      assert (a + b)[|a| + i..] == b[i..];
    }
  }

  /** The decimal digit for `d`. */
  function Digit(d: nat): (c: char)
    requires d < 10
    ensures '0' <= c <= '9' && (c as int) - ('0' as int) == d
  {
    ('0' as int + d) as char
  }

  /** The value of a string of decimal digits. */
  function DigitsValue(s: string): nat
    requires forall i :: 0 <= i < |s| ==> '0' <= s[i] <= '9'
  {
    if s == [] then 0 else DigitsValue(s[..|s| - 1]) * 10 + ((s[|s| - 1] as int) - ('0' as int))
  }

  /** The decimal rendering of a natural number in a template literal (`${n}`). */
  function DecimalString(n: nat): (r: string)
    ensures |r| >= 1 && (r[0] == '0' ==> n == 0)
    ensures forall i :: 0 <= i < |r| ==> '0' <= r[i] <= '9'
    ensures DigitsValue(r) == n
  {
    if n < 10 then [Digit(n)]
    else
      var r := DecimalString(n / 10) + [Digit(n % 10)];
      assert r[..|r| - 1] == DecimalString(n / 10);
      r
  }

  /** The rendering of an integer in a template literal: a minus sign before the
      decimal digits of its magnitude when it is negative. */
  function IntegerString(n: int): (r: string)
    ensures |r| >= 1 && (r[0] == '-' <==> n < 0)
    ensures var digits := if n < 0 then r[1..] else r;
      && digits != []
      && (digits[0] == '0' ==> n == 0)
      && (forall i :: 0 <= i < |digits| ==> '0' <= digits[i] <= '9')
      && DigitsValue(digits) == (if n < 0 then -n else n)
  {
    if n >= 0 then DecimalString(n) else "-" + DecimalString(-n)
  }
}
