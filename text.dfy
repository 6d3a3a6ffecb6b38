/**
 * The pieces of Python's `str` that the voice agent relies on: `lower()`,
 * `replace()`, `split()` on whitespace, `split(sep)`, `" ".join(...)`,
 * `in` on strings, `strip()`, slicing with a possibly negative bound,
 * `str(int)` and string ordering. Character classes are the ASCII ones.
 */
module Text {

  /** `str.isspace()` on the ASCII range. */
  predicate IsSpace(c: char) {
    c == ' ' || ('\t' <= c <= '\r') || ('\U{001C}' <= c <= '\U{001F}')
  }

  /** `\d` and `str.isdigit()` on the ASCII range. */
  predicate IsDigit(c: char) {
    '0' <= c <= '9'
  }

  /** `str.isalnum()` on the ASCII range. */
  predicate IsAlnum(c: char) {
    ('a' <= c <= 'z') || ('A' <= c <= 'Z') || IsDigit(c)
  }

  predicate NoSpace(s: string) {
    forall k :: 0 <= k < |s| ==> !IsSpace(s[k])
  }

  function Elems<T>(s: seq<T>): set<T> {
    set x | x in s
  }

  // ---------------------------------------------------------------- lower / replace

  function LowerChar(c: char): char {
    if 'A' <= c <= 'Z' then (c as int + 32) as char else c
  }

  /** `s.lower()`. */
  function Lower(s: string): (r: string)
    ensures |r| == |s|
    ensures forall k :: 0 <= k < |s| ==> r[k] == LowerChar(s[k])
  {
    seq(|s|, k requires 0 <= k < |s| => LowerChar(s[k]))
  }

  /** `s.replace(old, new)` for single characters. */
  function Replace(s: string, from: char, to: char): (r: string)
    ensures |r| == |s|
    ensures forall k :: 0 <= k < |s| ==> r[k] == if s[k] == from then to else s[k]
  {
    seq(|s|, k requires 0 <= k < |s| => if s[k] == from then to else s[k])
  }

  // ---------------------------------------------------------------- split() / join

  /** The string without its leading whitespace. */
  function DropSpaces(s: string): (r: string)
    ensures |r| <= |s|
    ensures r != [] ==> !IsSpace(r[0])
  {
    if s != [] && IsSpace(s[0]) then DropSpaces(s[1..]) else s
  }

  /** `s.split()`: the maximal runs of non-whitespace characters, in order. */
  function Split(s: string): (words: seq<string>)
    ensures forall w :: w in words ==> w != [] && NoSpace(w)
  {
    SplitAcc(s, [])
  }

  /**
   * The words of `s`, where `cur` is the word being read when `s` starts:
   * a whitespace character ends the current word, any other extends it.
   */
  function SplitAcc(s: string, cur: string): (words: seq<string>)
    requires NoSpace(cur)
    ensures forall w :: w in words ==> w != [] && NoSpace(w)
  {
    if s == [] then (if cur == [] then [] else [cur])
    else if IsSpace(s[0]) then (if cur == [] then SplitAcc(s[1..], []) else [cur] + SplitAcc(s[1..], []))
    else SplitAcc(s[1..], cur + [s[0]])
  }

  /** `sep.join(parts)`. */
  function Join(sep: string, parts: seq<string>): string {
    if parts == [] then ""
    else if |parts| == 1 then parts[0]
    else parts[0] + sep + Join(sep, parts[1..])
  }

  /** Reading a word that ends at a space or at the end of input extends the current word by it. */
  lemma {:induction false} SplitAccWord(w: string, rest: string, cur: string)
    requires NoSpace(cur) && NoSpace(w)
    requires rest == [] || IsSpace(rest[0])
    ensures NoSpace(cur + w)
    ensures SplitAcc(w + rest, cur) == SplitAcc(rest, cur + w)
    decreases |w|
  {
    if w == [] {
      assert w + rest == rest;
      assert cur + w == cur;
    } else {
      assert (w + rest)[0] == w[0];
      assert (w + rest)[1..] == w[1..] + rest;
      assert (cur + [w[0]]) + w[1..] == cur + w;
      SplitAccWord(w[1..], rest, cur + [w[0]]);
    }
  }

  /** A space ends the current word and starts the next one empty. */
  lemma SplitAccSpace(rest: string, cur: string)
    requires NoSpace(cur)
    ensures SplitAcc(" " + rest, cur) == (if cur == [] then [] else [cur]) + SplitAcc(rest, [])
  {
    assert (" " + rest)[1..] == rest;
  }

  lemma SplitJoinCons(w: string, more: seq<string>)
    requires w != [] && NoSpace(w) && more != []
    ensures Split(Join(" ", [w] + more)) == [w] + Split(Join(" ", more))
  {
    var j := Join(" ", more);
    assert ([w] + more)[1..] == more;
    assert Join(" ", [w] + more) == w + (" " + j);
    SplitAccWord(w, " " + j, []);
    assert [] + w == w;
    SplitAccSpace(j, w);
  }

  /** Splitting words joined by single spaces gives the words back. */
  lemma {:induction false} SplitJoin(words: seq<string>)
    requires forall w :: w in words ==> w != [] && NoSpace(w)
    ensures Split(Join(" ", words)) == words
  {
    if words == [] {
    } else if |words| == 1 {
      assert words[0] in words;
      SplitAccWord(words[0], "", []);
      assert words[0] + "" == words[0];
      assert [] + words[0] == words[0];
    } else {
      assert words[0] in words;
      assert words == [words[0]] + words[1..];
      SplitJoinCons(words[0], words[1..]);
      assert forall x :: x in words[1..] ==> x in words;
      SplitJoin(words[1..]);
    }
  }

  /** Words on either side of a space are read independently. */
  lemma {:induction false} SplitAccAppend(a: string, b: string, cur: string)
    requires NoSpace(cur)
    ensures SplitAcc(a + " " + b, cur) == SplitAcc(a, cur) + SplitAcc(b, [])
    decreases |a|
  {
    if a == [] {
      assert a + " " + b == " " + b;
      SplitAccSpace(b, cur);
    } else {
      assert (a + " " + b)[0] == a[0];
      assert (a + " " + b)[1..] == a[1..] + " " + b;
      if IsSpace(a[0]) {
        SplitAccAppend(a[1..], b, []);
      } else {
        SplitAccAppend(a[1..], b, cur + [a[0]]);
      }
    }
  }

  /** `(a + " " + b).split()` is `a.split() + b.split()`. */
  lemma SplitAppend(a: string, b: string)
    ensures Split(a + " " + b) == Split(a) + Split(b)
  {
    SplitAccAppend(a, b, []);
  }

  /** Lower-casing works character by character, so it distributes over concatenation. */
  lemma LowerAppend(a: string, b: string)
    ensures Lower(a + b) == Lower(a) + Lower(b)
  {
    assert forall k :: 0 <= k < |a + b| ==> Lower(a + b)[k] == (Lower(a) + Lower(b))[k];
  }

  // ---------------------------------------------------------------- substring test

  /** `pat` occurs in `text` starting at index `k`. */
  predicate OccursAt(text: string, pat: string, k: int) {
    0 <= k && k + |pat| <= |text| && text[k..k + |pat|] == pat
  }

  /** Python's `pat in text` on strings. */
  predicate Contains(text: string, pat: string) {
    exists k | 0 <= k <= |text| - |pat| :: OccursAt(text, pat, k)
  }

  /** An occurrence in `a + " " + b` lies in `a`, lies in `b`, or covers the space. */
  lemma OccurrenceAcrossSpace(a: string, b: string, pat: string, k: int)
    requires OccursAt(a + " " + b, pat, k)
    ensures OccursAt(a, pat, k) || OccursAt(b, pat, k - |a| - 1) || ' ' in pat
  {
    var s := a + " " + b;
    if k + |pat| <= |a| {
      assert s[k..k + |pat|] == a[k..k + |pat|];
    } else if k >= |a| + 1 {
      var k' := k - |a| - 1;
      assert s[k..k + |pat|] == b[k'..k' + |pat|];
    } else {
      assert pat[|a| - k] == s[|a|] == ' ';
    }
  }

  /** A pattern without a space occurs across a single-space seam only inside one side. */
  lemma ContainsAcrossSpace(a: string, b: string, pat: string)
    requires ' ' !in pat
    ensures Contains(a + " " + b, pat) <==> Contains(a, pat) || Contains(b, pat)
  {
    var s := a + " " + b;
    if Contains(s, pat) {
      var k :| 0 <= k <= |s| - |pat| && OccursAt(s, pat, k);
      OccurrenceAcrossSpace(a, b, pat, k);
    }
    if Contains(a, pat) {
      var k :| 0 <= k <= |a| - |pat| && OccursAt(a, pat, k);
      assert s[..|a|] == a;
      assert s[k..k + |pat|] == s[..|a|][k..k + |pat|];
      assert OccursAt(s, pat, k);
    }
    if Contains(b, pat) {
      var k :| 0 <= k <= |b| - |pat| && OccursAt(b, pat, k);
      var k' := k + |a| + 1;
      assert s[|a| + 1..] == b;
      assert s[k'..k' + |pat|] == s[|a| + 1..][k..k + |pat|];
      assert OccursAt(s, pat, k');
    }
  }

  /** A non-empty pattern without a space occurs in space-joined words iff it occurs in one word. */
  lemma {:induction false} ContainsInJoin(words: seq<string>, pat: string)
    requires pat != [] && ' ' !in pat
    ensures Contains(Join(" ", words), pat) <==> exists w :: w in words && Contains(w, pat)
  {
    if words == [] {
      assert !Contains("", pat);
    } else if |words| == 1 {
      assert words == [words[0]];
    } else {
      ContainsAcrossSpace(words[0], Join(" ", words[1..]), pat);
      ContainsInJoin(words[1..], pat);
      assert words == [words[0]] + words[1..];
    }
  }

  // ---------------------------------------------------------------- strip() and split(sep)

  /** The string without its trailing whitespace. */
  function TrimRight(s: string): (r: string)
    ensures |r| <= |s| && r == s[..|r|]
    ensures r != [] ==> !IsSpace(r[|r| - 1])
  {
    if s != [] && IsSpace(s[|s| - 1]) then TrimRight(s[..|s| - 1]) else s
  }

  /** `s.strip()`. */
  function Strip(s: string): (r: string)
    ensures r != [] ==> !IsSpace(r[0]) && !IsSpace(r[|r| - 1])
  {
    TrimRight(DropSpaces(s))
  }

  function IndexOf(s: string, c: char): (i: nat)
    requires c in s
    ensures i < |s| && s[i] == c && c !in s[..i]
  {
    if s[0] == c then 0 else 1 + IndexOf(s[1..], c)
  }

  /** `IndexOf` finds the first occurrence. */
  lemma {:induction false} IndexOfFirst(s: string, c: char, j: nat)
    requires j < |s| && s[j] == c && c !in s[..j]
    ensures IndexOf(s, c) == j
    decreases j
  {
    if j > 0 {
      assert s[0] == s[..j][0];
      assert s[1..][..j - 1] == s[..j][1..];
      IndexOfFirst(s[1..], c, j - 1);
    }
  }

  /** `s.split(sep)` for a one-character separator: never empty, `[""]` for `""`. */
  function SplitOn(s: string, sep: char): (parts: seq<string>)
    ensures |parts| >= 1
    ensures forall p :: p in parts ==> sep !in p
    decreases |s|
  {
    if sep !in s then [s]
    else
      var i := IndexOf(s, sep);
      [s[..i]] + SplitOn(s[i + 1..], sep)
  }

  /** Joining the pieces of `s.split(sep)` with `sep` restores `s`. */
  lemma {:induction false} JoinSplitOn(s: string, sep: char)
    ensures Join([sep], SplitOn(s, sep)) == s
    decreases |s|
  {
    if sep in s {
      var i := IndexOf(s, sep);
      var tail := s[i + 1..];
      SplitOnUnfold(s, sep);
      JoinCons([sep], s[..i], SplitOn(tail, sep));
      JoinSplitOn(tail, sep);
    }
  }

  /** One step of `split(sep)`: the piece before the first separator, then the rest. */
  lemma SplitOnUnfold(s: string, sep: char)
    requires sep in s
    ensures var i := IndexOf(s, sep);
      && SplitOn(s, sep) == [s[..i]] + SplitOn(s[i + 1..], sep)
      && s == s[..i] + [sep] + s[i + 1..]
  {
    var i := IndexOf(s, sep);
    AroundIndex(s, i);
  }

  lemma AroundIndex(s: string, i: int)
    requires 0 <= i < |s|
    ensures s == s[..i] + [s[i]] + s[i + 1..]
  {
    assert s[i..] == [s[i]] + s[i + 1..];
    assert s == s[..i] + s[i..];
  }

  /** Splitting parts joined with `sep` gives the parts back when none contains `sep`. */
  lemma {:induction false} SplitOnJoin(parts: seq<string>, sep: char)
    requires parts != []
    requires forall p :: p in parts ==> sep !in p
    ensures SplitOn(Join([sep], parts), sep) == parts
    decreases |parts|
  {
    if |parts| > 1 {
      var first, rest := parts[0], parts[1..];
      JoinCons([sep], first, rest);
      var s := Join([sep], parts);
      var tail := Join([sep], rest);
      assert s == first + [sep] + tail;
      assert s[|first|] == sep;
      assert s[..|first|] == first;
      IndexOfFirst(s, sep, |first|);
      var i := IndexOf(s, sep);
      assert s[..i] == first;
      assert s[i + 1..] == tail;
      SplitOnJoin(rest, sep);
      assert parts == [first] + rest;
    }
  }

  /** The three parts of a concatenation are recovered by slicing. */
  lemma ThreeParts<T>(a: seq<T>, b: seq<T>, c: seq<T>)
    ensures var s := a + b + c;
      && s[..|a|] == a && s[|s| - |c|..] == c && s[|a|..|s| - |c|] == b
  {
  }

  /** Joining a part in front of further parts puts the separator between them. */
  lemma JoinCons(sep: string, first: string, rest: seq<string>)
    requires rest != []
    ensures Join(sep, [first] + rest) == first + sep + Join(sep, rest)
  {
    assert ([first] + rest)[1..] == rest;
  }

  /** Joining with one more part appends the separator and that part. */
  lemma {:induction false} JoinSnoc(sep: string, parts: seq<string>, last: string)
    requires parts != []
    ensures Join(sep, parts + [last]) == Join(sep, parts) + sep + last
    decreases |parts|
  {
    var all := parts + [last];
    assert all[0] == parts[0] && all[1..] == parts[1..] + [last];
    if |parts| > 1 {
      JoinSnoc(sep, parts[1..], last);
    }
  }

  /** Joining two or more parts: all but the last joined, the separator, then the last. */
  lemma JoinDropLast(sep: string, parts: seq<string>)
    requires |parts| >= 2
    ensures Join(sep, parts) == Join(sep, parts[..|parts| - 1]) + sep + parts[|parts| - 1]
  {
    var remaining := parts[..|parts| - 1];
    assert parts == remaining + [parts[|parts| - 1]];
    JoinSnoc(sep, remaining, parts[|parts| - 1]);
  }

  /** `s.split(sep)` is `[""]` exactly for the empty string. */
  lemma SplitOnEmpty(s: string, sep: char)
    ensures SplitOn(s, sep) == [""] <==> s == ""
  {
  }

  /** `s.strip(c)` for one character `c`. */
  function StripChar(s: string, c: char): (r: string)
    ensures |r| <= |s|
    ensures r != [] ==> r[0] != c && r[|r| - 1] != c
    ensures forall x :: x in r ==> x in s
    ensures forall x :: x in s && x != c ==> x in r
  {
    if s != [] && s[0] == c then StripChar(s[1..], c)
    else if s != [] && s[|s| - 1] == c then StripChar(s[..|s| - 1], c)
    else s
  }

  // ---------------------------------------------------------------- slicing, numbers, ordering

  /** Python's `s[:n]`, where a negative `n` counts from the end. */
  function PyPrefix<T>(s: seq<T>, n: int): (r: seq<T>)
    ensures |r| <= |s| && r == s[..|r|]
    ensures 0 <= n ==> |r| == if n < |s| then n else |s|
  {
    if n >= |s| then s
    else if n >= 0 then s[..n]
    else if |s| + n > 0 then s[..|s| + n]
    else []
  }

  function DigitChar(d: nat): (c: char)
    requires d < 10
    ensures IsDigit(c)
  {
    "0123456789"[d]
  }

  /** `str(n)` for a non-negative integer. */
  function NatToString(n: nat): (r: string)
    ensures r != [] && forall k :: 0 <= k < |r| ==> IsDigit(r[k])
  {
    if n < 10 then [DigitChar(n)] else NatToString(n / 10) + [DigitChar(n % 10)]
  }

  /** `str(i)` for any integer. */
  function IntToString(i: int): string {
    if i < 0 then "-" + NatToString(-i) else NatToString(i)
  }

  /** Python's `a < b` on strings: code-point lexicographic order. */
  predicate LexLess(a: string, b: string) {
    if a == [] then b != []
    else b != [] && (a[0] < b[0] || (a[0] == b[0] && LexLess(a[1..], b[1..])))
  }

  lemma {:induction false} LexLessIrreflexive(a: string)
    ensures !LexLess(a, a)
  {
    if a != [] {
      LexLessIrreflexive(a[1..]);
    }
  }

  lemma {:induction false} LexLessTransitive(a: string, b: string, c: string)
    requires LexLess(a, b) && LexLess(b, c)
    ensures LexLess(a, c)
  {
    if a != [] && a[0] == b[0] && b[0] == c[0] {
      LexLessTransitive(a[1..], b[1..], c[1..]);
    }
  }

  lemma {:induction false} LexLessTotal(a: string, b: string)
    ensures a == b || LexLess(a, b) || LexLess(b, a)
  {
    if a != [] && b != [] && a[0] == b[0] {
      LexLessTotal(a[1..], b[1..]);
      if a[1..] == b[1..] {
        assert a == [a[0]] + a[1..] && b == [b[0]] + b[1..];
      }
    }
  }
}
