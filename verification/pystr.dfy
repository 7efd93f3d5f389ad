/** The handful of Python `str` operations the bot relies on, over `seq<char>`
    (one `char` per Unicode code point, as in Python 3). */
module PyStr {

  /** The code points CPython's `str.isspace()` accepts: the Unicode
      White_Space characters plus the separators U+001C..U+001F. */
  const SPACES: set<char> := {
    '\t', '\n', '\U{0B}', '\U{0C}', '\r', '\U{1C}', '\U{1D}', '\U{1E}', '\U{1F}', ' ',
    '\U{85}', '\U{A0}', '\U{1680}',
    '\U{2000}', '\U{2001}', '\U{2002}', '\U{2003}', '\U{2004}', '\U{2005}',
    '\U{2006}', '\U{2007}', '\U{2008}', '\U{2009}', '\U{200A}',
    '\U{2028}', '\U{2029}', '\U{202F}', '\U{205F}', '\U{3000}'
  }

  /** Python's `str.isspace()` for one code point. */
  predicate IsSpace(c: char) {
    c in SPACES
  }

  predicate NoSpace(s: string) {
    forall i :: 0 <= i < |s| ==> !IsSpace(s[i])
  }

  /** Printable ASCII other than the space is never whitespace. */
  lemma VisibleNoSpace(s: string)
    requires forall i :: 0 <= i < |s| ==> '!' <= s[i] <= '~'
    ensures NoSpace(s)
  {
  }

  predicate AllSpace(s: string) {
    forall i :: 0 <= i < |s| ==> IsSpace(s[i])
  }

  /** The index of the first non-space character at or after `i` (or `|s|`). */
  function SkipSpace(s: string, i: nat): (k: nat)
    requires i <= |s|
    ensures i <= k <= |s|
    ensures forall j :: i <= j < k ==> IsSpace(s[j])
    ensures k < |s| ==> !IsSpace(s[k])
    decreases |s| - i
  {
    if i < |s| && IsSpace(s[i]) then SkipSpace(s, i + 1) else i
  }

  /** The index of the first space character at or after `i` (or `|s|`). */
  function SkipWord(s: string, i: nat): (k: nat)
    requires i <= |s|
    ensures i <= k <= |s|
    ensures forall j :: i <= j < k ==> !IsSpace(s[j])
    ensures k < |s| ==> IsSpace(s[k])
    decreases |s| - i
  {
    if i < |s| && !IsSpace(s[i]) then SkipWord(s, i + 1) else i
  }

  /** The index just past the last non-space character before `k` (or 0). */
  function TrimEnd(s: string, k: nat): (e: nat)
    requires k <= |s|
    ensures e <= k
    ensures forall j :: e <= j < k ==> IsSpace(s[j])
    ensures e > 0 ==> !IsSpace(s[e - 1])
  {
    if k > 0 && IsSpace(s[k - 1]) then TrimEnd(s, k - 1) else k
  }

  /** `s.strip()`: `s` without leading and trailing whitespace. It is empty
      exactly when `s` is all whitespace; otherwise it is the stretch of `s`
      from its first to its last non-space character. */
  function Strip(s: string): (r: string)
    ensures r == [] <==> AllSpace(s)
    ensures r != [] ==> !IsSpace(r[0]) && !IsSpace(r[|r| - 1])
    ensures |r| <= |s|
    ensures exists b, e :: 0 <= b <= e <= |s| && r == s[b..e] && AllSpace(s[..b]) && AllSpace(s[e..])
  {
    var b := SkipSpace(s, 0);
    var e := TrimEnd(s, |s|);
    if e <= b then
      assert AllSpace(s[..|s|]) && AllSpace(s[|s|..]) && [] == s[|s|..|s|];
      []
    else
      assert !IsSpace(s[b]);
      assert AllSpace(s[..b]) && AllSpace(s[e..]);
      s[b..e]
  }

  /** Stripping twice is stripping once. */
  lemma StripIdempotent(s: string)
    ensures Strip(Strip(s)) == Strip(s)
  {
    var r := Strip(s);
    if r != [] {
      assert SkipSpace(r, 0) == 0;
      assert TrimEnd(r, |r|) == |r|;
      assert r[0..|r|] == r;
    }
  }

  /** The longest prefix of `s` that holds no whitespace. */
  function Word(s: string): (w: string)
    ensures |w| <= |s| && w == s[..|w|] && NoSpace(w)
    ensures |w| < |s| ==> IsSpace(s[|w|])
  {
    s[..SkipWord(s, 0)]
  }

  /** `s[i..].split(maxsplit=maxsplit)` with no separator, following
      CPython's scan: skip whitespace, cut a word, repeat; once `maxsplit`
      words are cut, the remainder after its leading whitespace (trailing
      whitespace kept) is the last part. */
  function SplitFrom(s: string, i: nat, maxsplit: int): seq<string>
    requires i <= |s|
    decreases |s| - i
  {
    var j := SkipSpace(s, i);
    if j == |s| then []
    else if maxsplit == 0 then [s[j..]]
    else
      var k := SkipWord(s, j);
      [s[j..k]] + SplitFrom(s, k, maxsplit - 1)
  }

  /** Every part is non-empty and starts with a non-space; all but the last
      are single words, and the last is one too unless `maxsplit` ran out. */
  lemma {:induction false} SplitFromShape(s: string, i: nat, maxsplit: int)
    requires i <= |s|
    ensures var parts := SplitFrom(s, i, maxsplit);
      && (forall p :: 0 <= p < |parts| ==> parts[p] != [] && !IsSpace(parts[p][0]))
      && (forall p :: 0 <= p < |parts| - 1 ==> NoSpace(parts[p]))
      && (maxsplit >= 0 ==> |parts| <= maxsplit + 1)
      && ((maxsplit < 0 || |parts| <= maxsplit) ==> forall p :: 0 <= p < |parts| ==> NoSpace(parts[p]))
      && (parts == [] <==> AllSpace(s[i..]))
    decreases |s| - i
  {
    var j := SkipSpace(s, i);
    if j == |s| {
    } else {
      assert !AllSpace(s[i..]) by { assert s[i..][j - i] == s[j]; }
      if maxsplit != 0 {
        var k := SkipWord(s, j);
        SplitFromShape(s, k, maxsplit - 1);
        var rest := SplitFrom(s, k, maxsplit - 1);
        var parts := [s[j..k]] + rest;
        assert forall p :: 1 <= p < |parts| ==> parts[p] == rest[p - 1];
      }
    }
  }

  /** `parts` are the slices `s[b[p].0..b[p].1]` of `s[i..]`, left to right,
      with nothing but whitespace before, between and after them. */
  ghost predicate Cuts(s: string, i: nat, b: seq<(nat, nat)>, parts: seq<string>) {
    && i <= |s|
    && |b| == |parts|
    && (forall p :: 0 <= p < |b| ==> i <= b[p].0 < b[p].1 <= |s| && parts[p] == s[b[p].0..b[p].1])
    && (forall p, q :: 0 <= p && q == p + 1 && q < |b| ==> b[p].1 < b[q].0 <= |s| && AllSpace(s[b[p].1..b[q].0]))
    && (b == [] ==> AllSpace(s[i..]))
    && (b != [] ==> AllSpace(s[i..b[0].0]) && AllSpace(s[b[|b| - 1].1..]))
  }

  /** Whitespace, then the word `s[j..k]`, then cut `s[k..]`: a cut of `s[i..]`. */
  lemma CutsCons(s: string, i: nat, j: nat, k: nat, rest: seq<(nat, nat)>, parts: seq<string>)
    requires i <= j < k <= |s| && AllSpace(s[i..j]) && Cuts(s, k, rest, parts)
    requires rest != [] ==> k < rest[0].0
    ensures Cuts(s, i, [(j, k)] + rest, [s[j..k]] + parts)
  {
    var b := [(j, k)] + rest;
    var ps := [s[j..k]] + parts;
    forall p | 0 <= p < |b| ensures i <= b[p].0 < b[p].1 <= |s| && ps[p] == s[b[p].0..b[p].1] {
      if p > 0 {
        assert b[p] == rest[p - 1] && ps[p] == parts[p - 1];
      }
    }
    forall p, q | 0 <= p && q == p + 1 && q < |b| ensures b[p].1 < b[q].0 <= |s| && AllSpace(s[b[p].1..b[q].0]) {
      assert b[q] == rest[p];
      if p > 0 {
        assert b[p] == rest[p - 1];
      }
    }
    assert b[|b| - 1].1 == if rest == [] then k else rest[|rest| - 1].1;
  }

  /** The cut points of `SplitFrom(s, i, maxsplit)`. */
  lemma {:induction false} SplitFromCuts(s: string, i: nat, maxsplit: int) returns (b: seq<(nat, nat)>)
    requires i <= |s|
    ensures Cuts(s, i, b, SplitFrom(s, i, maxsplit))
    ensures b != [] ==> b[0].0 == SkipSpace(s, i)
    decreases |s| - i
  {
    var j := SkipSpace(s, i);
    assert AllSpace(s[i..j]) by {
      forall x | 0 <= x < j - i ensures IsSpace(s[i..j][x]) { assert s[i..j][x] == s[i + x]; }
    }
    if j == |s| {
      b := [];
    } else if maxsplit == 0 {
      b := [(j, |s|)];
    } else {
      var k := SkipWord(s, j);
      var rest := SplitFromCuts(s, k, maxsplit - 1);
      CutsCons(s, i, j, k, rest, SplitFrom(s, k, maxsplit - 1));
      b := [(j, k)] + rest;
    }
  }

  /** `s.split(maxsplit=maxsplit)` with no separator; a negative `maxsplit`
      means no limit, as in Python. */
  function Split(s: string, maxsplit: int): (parts: seq<string>)
    ensures forall p :: 0 <= p < |parts| ==> parts[p] != [] && !IsSpace(parts[p][0])
    ensures forall p :: 0 <= p < |parts| - 1 ==> NoSpace(parts[p])
    ensures maxsplit >= 0 ==> |parts| <= maxsplit + 1
    ensures (maxsplit < 0 || |parts| <= maxsplit) ==> forall p :: 0 <= p < |parts| ==> NoSpace(parts[p])
    ensures parts == [] <==> AllSpace(s)
  {
    assert s[0..] == s;
    SplitFromShape(s, 0, maxsplit);
    SplitFrom(s, 0, maxsplit)
  }

  /** The parts of `s.split(maxsplit=maxsplit)` are the whitespace-separated
      stretches of `s`, in order, with only whitespace around them. */
  lemma SplitCuts(s: string, maxsplit: int)
    ensures exists b :: Cuts(s, 0, b, Split(s, maxsplit))
  {
    assert s[0..] == s;
    var b := SplitFromCuts(s, 0, maxsplit);
    assert Cuts(s, 0, b, Split(s, maxsplit));
  }

  /** `sep.join(parts)`. */
  function Join(parts: seq<string>, sep: string): string {
    if parts == [] then []
    else if |parts| == 1 then parts[0]
    else parts[0] + sep + Join(parts[1..], sep)
  }

  predicate OccursAt(s: string, pat: string, i: int) {
    0 <= i && i + |pat| <= |s| && s[i..i + |pat|] == pat
  }

  ghost predicate Contains(s: string, pat: string) {
    exists i :: OccursAt(s, pat, i)
  }

  /** `s[k..]` shifted by a prefix keeps its occurrences. */
  lemma OccursAfter(a: string, s: string, pat: string, k: int)
    requires OccursAt(s, pat, k)
    ensures OccursAt(a + s, pat, |a| + k)
  {
    assert (a + s)[|a| + k..|a| + k + |pat|] == s[k..k + |pat|];
  }

  /** Every part occurs in the joined string. */
  lemma {:induction false} JoinHas(parts: seq<string>, sep: string, i: nat)
    requires i < |parts|
    ensures Contains(Join(parts, sep), parts[i])
  {
    if i == 0 {
      if |parts| == 1 {
        assert OccursAt(Join(parts, sep), parts[0], 0);
      } else {
        var rest := sep + Join(parts[1..], sep);
        assert Join(parts, sep) == parts[0] + rest;
        assert (parts[0] + rest)[0..|parts[0]|] == parts[0];
        assert OccursAt(Join(parts, sep), parts[0], 0);
      }
    } else {
      JoinHas(parts[1..], sep, i - 1);
      var k :| OccursAt(Join(parts[1..], sep), parts[1..][i - 1], k);
      OccursAfter(parts[0] + sep, Join(parts[1..], sep), parts[i], k);
      assert Join(parts, sep) == (parts[0] + sep) + Join(parts[1..], sep);
    }
  }

  /** `s.replace(pat, rep)`: every non-overlapping occurrence of `pat`,
      scanning left to right, becomes `rep`. */
  function Replace(s: string, pat: string, rep: string): (r: string)
    requires pat != []
    ensures !Contains(s, pat) ==> r == s
    ensures |pat| == 1 && |rep| == 1 ==>
      |r| == |s| && forall i :: 0 <= i < |s| ==> r[i] == (if s[i] == pat[0] then rep[0] else s[i])
    decreases |s|
  {
    if s == [] then []
    else if pat <= s then
      assert OccursAt(s, pat, 0);
      rep + Replace(s[|pat|..], pat, rep)
    else
      assert !Contains(s, pat) ==> !Contains(s[1..], pat) by {
        if Contains(s[1..], pat) {
          var i :| OccursAt(s[1..], pat, i);
          assert s[i + 1..i + 1 + |pat|] == s[1..][i..i + |pat|];
          assert OccursAt(s, pat, i + 1);
        }
      }
      [s[0]] + Replace(s[1..], pat, rep)
  }

  /** `s.startswith(prefix)`. */
  predicate StartsWith(s: string, prefix: string) {
    prefix <= s
  }

  function LowerChar(c: char): char {
    if 'A' <= c <= 'Z' then (c as int + 32) as char else c
  }

  /** `s.lower()` on the ASCII letters (see README for non-ASCII letters). */
  function Lower(s: string): (r: string)
    ensures |r| == |s|
  {
    seq(|s|, i requires 0 <= i < |s| => LowerChar(s[i]))
  }

  /** `s[:n]`: at most the first `n` characters. */
  function Truncate(s: string, n: nat): (r: string)
    ensures |r| <= n && r <= s
    ensures |s| <= n ==> r == s
  {
    if |s| <= n then s else s[..n]
  }

  function DigitChar(d: nat): char
    requires d < 10
  {
    ('0' as int + d) as char
  }

  function NatToString(n: nat): string
    decreases n
  {
    if n < 10 then [DigitChar(n)] else NatToString(n / 10) + [DigitChar(n % 10)]
  }

  /** `str(i)` for an integer. */
  function IntToString(i: int): string {
    if i < 0 then "-" + NatToString(-i) else NatToString(i)
  }

  /** A run of non-space characters from `i` that ends at `k` (at the end
      of `s` or at a space) is exactly what `SkipWord` skips. */
  lemma {:induction false} SkipWordRun(s: string, i: nat, k: nat)
    requires i <= k <= |s|
    requires forall j :: i <= j < k ==> !IsSpace(s[j])
    requires k == |s| || IsSpace(s[k])
    ensures SkipWord(s, i) == k
    decreases k - i
  {
    if i < k {
      SkipWordRun(s, i + 1, k);
    }
  }

  /** Splitting from a space is splitting from just after it. */
  lemma SplitFromSkip(s: string, i: nat, maxsplit: int)
    requires i < |s| && IsSpace(s[i])
    ensures SplitFrom(s, i, maxsplit) == SplitFrom(s, i + 1, maxsplit)
  {
    assert SkipSpace(s, i) == SkipSpace(s, i + 1);
  }

  /** A word followed by a space is cut off as the next part. */
  lemma SplitFromWord(s: string, i: nat, w: string, maxsplit: int)
    requires i + |w| < |s| && s[i..i + |w|] == w
    requires w != [] && NoSpace(w) && IsSpace(s[i + |w|])
    requires maxsplit != 0
    ensures SplitFrom(s, i, maxsplit) == [w] + SplitFrom(s, i + |w| + 1, maxsplit - 1)
  {
    var k := i + |w|;
    assert !IsSpace(s[i]) by { assert s[i] == w[0]; }
    assert SkipSpace(s, i) == i;
    forall j | i <= j < k
      ensures !IsSpace(s[j])
    {
      assert s[j] == w[j - i];
    }
    SkipWordRun(s, i, k);
    assert SplitFrom(s, i, maxsplit) == [s[i..k]] + SplitFrom(s, k, maxsplit - 1);
    SplitFromSkip(s, k, maxsplit - 1);
  }

  /** What is left after the last cut is one part: the rest of the text. */
  lemma SplitFromRest(s: string, i: nat, maxsplit: int)
    requires i < |s| && !IsSpace(s[i])
    requires maxsplit == 0 || NoSpace(s[i..])
    ensures SplitFrom(s, i, maxsplit) == [s[i..]]
  {
    assert SkipSpace(s, i) == i;
    if maxsplit != 0 {
      forall j | i <= j < |s|
        ensures !IsSpace(s[j])
      {
        assert s[j] == s[i..][j - i];
      }
      SkipWordRun(s, i, |s|);
      assert SplitFrom(s, |s|, maxsplit - 1) == [];
      assert s[i..|s|] == s[i..];
    }
  }

  /** Joining non-empty, whitespace-free words with single spaces and
      splitting the result again gives back the words. */
  lemma {:induction false} SplitJoinFrom(s: string, i: nat, words: seq<string>, maxsplit: int)
    requires maxsplit < 0
    requires i <= |s| && s[i..] == Join(words, " ")
    requires forall p :: 0 <= p < |words| ==> words[p] != [] && NoSpace(words[p])
    ensures SplitFrom(s, i, maxsplit) == words
    decreases |words|
  {
    if words == [] {
      assert i == |s|;
    } else if |words| == 1 {
      assert s[i..] == words[0];
      assert !IsSpace(s[i]) by { assert s[i] == s[i..][0]; }
      SplitFromRest(s, i, maxsplit);
    } else {
      var w := words[0];
      var rest := Join(words[1..], " ");
      assert s[i..] == w + " " + rest;
      var k := i + |w|;
      SliceAround(s, i, w, rest);
      SplitFromWord(s, i, w, maxsplit);
      SplitJoinFrom(s, k + 1, words[1..], maxsplit - 1);
      assert words == [w] + words[1..];
    }
  }

  /** Where `w + " " + rest` starts at `i`, `w`, the space and `rest` sit at
      the expected places. */
  lemma SliceAround(s: string, i: nat, w: string, rest: string)
    requires i <= |s| && s[i..] == w + " " + rest
    ensures i + |w| < |s| && s[i..i + |w|] == w && s[i + |w|] == ' ' && s[i + |w| + 1..] == rest
  {
    var t := s[i..];
    assert s[i..i + |w|] == t[..|w|];
    assert s[i + |w|] == t[|w|];
    assert s[i + |w| + 1..] == t[|w| + 1..];
  }

  /** Where `w + " " + t` starts at `i`, the word `w` is cut off and
      splitting goes on at `t`. */
  lemma WordThen(s: string, i: nat, w: string, t: string, maxsplit: int)
    requires i <= |s| && s[i..] == w + " " + t
    requires w != [] && NoSpace(w) && maxsplit != 0
    ensures i + |w| + 1 <= |s| && s[i + |w| + 1..] == t
    ensures SplitFrom(s, i, maxsplit) == [w] + SplitFrom(s, i + |w| + 1, maxsplit - 1)
  {
    SliceAround(s, i, w, t);
    assert IsSpace(' ');
    SplitFromWord(s, i, w, maxsplit);
  }

  lemma SplitJoin(words: seq<string>)
    requires forall p :: 0 <= p < |words| ==> words[p] != [] && NoSpace(words[p])
    ensures Split(Join(words, " "), -1) == words
  {
    var s := Join(words, " ");
    assert s[0..] == s;
    SplitJoinFrom(s, 0, words, -1);
  }

  /** The text `cmd name rest` splits with `maxsplit=2` into the command, the
      single word `name`, and everything after it. */
  lemma SplitTwo(cmd: string, name: string, rest: string)
    requires cmd != [] && NoSpace(cmd) && name != [] && NoSpace(name)
    requires rest != [] && !IsSpace(rest[0])
    ensures Split(cmd + " " + name + " " + rest, 2) == [cmd, name, rest]
  {
    var s := cmd + " " + name + " " + rest;
    assert s[0..] == s == cmd + " " + (name + " " + rest);
    SplitTwoFrom(s, cmd, name, rest);
  }

  /** `SplitTwo` stated on the cutting loop itself. */
  lemma SplitTwoFrom(s: string, cmd: string, name: string, rest: string)
    requires s[0..] == cmd + " " + (name + " " + rest)
    requires cmd != [] && NoSpace(cmd) && name != [] && NoSpace(name)
    requires rest != [] && !IsSpace(rest[0])
    ensures SplitFrom(s, 0, 2) == [cmd, name, rest]
  {
    var i := |cmd| + 1;
    assert SplitFrom(s, 0, 2) == [cmd] + SplitFrom(s, i, 1) && i <= |s| && s[i..] == name + " " + rest by {
      WordThen(s, 0, cmd, name + " " + rest, 2);
    }
    assert SplitFrom(s, i, 1) == [name, rest] by {
      SplitOneFrom(s, i, name, rest);
    }
    ConsPair(cmd, name, rest, SplitFrom(s, i, 1));
  }

  lemma ConsPair<T>(a: T, b: T, c: T, y: seq<T>)
    requires y == [b, c]
    ensures [a] + y == [a, b, c]
  {
  }

  /** With one cut left, a word, a space and a non-blank rest split into
      the word and the whole rest. */
  lemma SplitOneFrom(s: string, i: nat, w: string, rest: string)
    requires i <= |s| && s[i..] == w + " " + rest
    requires w != [] && NoSpace(w)
    requires rest != [] && !IsSpace(rest[0])
    ensures SplitFrom(s, i, 1) == [w, rest]
  {
    var k := i + |w| + 1;
    WordThen(s, i, w, rest, 1);
    assert s[k] == rest[0];
    SplitFromRest(s, k, 0);
  }

  /** The text `cmd rest` splits with `maxsplit=1` into the command and
      everything after it. */
  lemma SplitOne(cmd: string, rest: string)
    requires cmd != [] && NoSpace(cmd)
    requires rest != [] && !IsSpace(rest[0])
    ensures Split(cmd + " " + rest, 1) == [cmd, rest]
  {
    var s := cmd + " " + rest;
    var k := |cmd| + 1;
    assert s[0..] == s;
    assert s[0..|cmd|] == cmd;
    SplitFromWord(s, 0, cmd, 1);
    assert s[k..] == rest;
    SplitFromRest(s, k, 0);
  }

  /** The first part of a split of text that starts with a non-space
      character is its first word. */
  lemma SplitFirst(s: string, maxsplit: int)
    requires s != [] && !IsSpace(s[0]) && maxsplit != 0
    ensures Split(s, maxsplit) != [] && Split(s, maxsplit)[0] == Word(s)
  {
    assert SkipSpace(s, 0) == 0;
    assert s[0..] == s;
  }
}
