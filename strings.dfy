/** The parts of Python's `str` that the line parsers use: `strip`, `split` with
  * and without a separator, `join`, `in`, `split`/`rsplit` with a limit of one,
  * `lower`, `startswith` and `int`.
  *
  * Strings are sequences of characters. Whitespace is Python's whole table;
  * case is cut down to ASCII and Latin-1, and digits to ASCII. */
module Strings {
  import opened Wrappers

  /** The characters `str.isspace` accepts, which are also the ones `strip()`
    * and `split()` cut at: tab to carriage return, the four separators 1C-1F,
    * space, NEL, no-break space and the Unicode spaces and line separators. */
  predicate IsSpace(c: char)
  {
    || c == ' ' || '\t' <= c <= '\r' || '\U{001C}' <= c <= '\U{001F}'
    || c == '\U{0085}' || c == '\U{00A0}' || c == '\U{1680}' || '\U{2000}' <= c <= '\U{200A}'
    || c == '\U{2028}' || c == '\U{2029}' || c == '\U{202F}' || c == '\U{205F}' || c == '\U{3000}'
  }

  predicate IsDigit(c: char)
  {
    '0' as int <= c as int <= '9' as int
  }

  /** `lstrip()`. */
  function StripStart(s: string): (r: string)
    ensures |r| <= |s| && r == s[|s| - |r|..]
    ensures forall k | 0 <= k < |s| - |r| :: IsSpace(s[k])
    ensures |r| == 0 || !IsSpace(r[0])
    decreases |s|
  {
    if |s| > 0 && IsSpace(s[0]) then StripStart(s[1..]) else s
  }

  /** `rstrip()`. */
  function StripEnd(s: string): (r: string)
    ensures |r| <= |s| && r == s[..|r|]
    ensures forall k | |r| <= k < |s| :: IsSpace(s[k])
    ensures |r| == 0 || !IsSpace(r[|r| - 1])
    decreases |s|
  {
    if |s| > 0 && IsSpace(s[|s| - 1]) then StripEnd(s[..|s| - 1]) else s
  }

  /** `strip()`: the slice between the leading and the trailing whitespace. */
  function Strip(s: string): string
  {
    StripEnd(StripStart(s))
  }

  /** `strip()` keeps a slice whose outside is all whitespace and whose ends are
    * not whitespace. */
  lemma StripShape(s: string)
    ensures var r := Strip(s);
      && (exists i, j | 0 <= i <= j <= |s| ::
        (r == s[i..j] && (forall k | 0 <= k < i :: IsSpace(s[k])) && (forall k | j <= k < |s| :: IsSpace(s[k]))))
      && (|r| == 0 || (!IsSpace(r[0]) && !IsSpace(r[|r| - 1])))
  {
    var t := StripStart(s);
    var i, j := StripBounds(s, t, StripEnd(t));
    StripEnds(t);
    assert Strip(s) == s[i..j];
  }

  /** `rstrip()` of a text that does not start with whitespace neither starts
    * nor ends with whitespace. */
  lemma StripEnds(t: string)
    requires |t| == 0 || !IsSpace(t[0])
    ensures var r := StripEnd(t); |r| == 0 || (!IsSpace(r[0]) && !IsSpace(r[|r| - 1]))
  {
    var r := StripEnd(t);
    if |r| > 0 {
      assert r[0] == t[0];
    }
  }

  /** Where `strip()` cuts: the whitespace `lstrip` drops comes first, the
    * whitespace `rstrip` drops after it comes last. */
  lemma StripBounds(s: string, t: string, r: string) returns (i: nat, j: nat)
    requires |t| <= |s| && t == s[|s| - |t|..] && forall k | 0 <= k < |s| - |t| :: IsSpace(s[k])
    requires |r| <= |t| && r == t[..|r|] && forall k | |r| <= k < |t| :: IsSpace(t[k])
    ensures i <= j <= |s| && r == s[i..j]
    ensures (forall k | 0 <= k < i :: IsSpace(s[k])) && (forall k | j <= k < |s| :: IsSpace(s[k]))
  {
    i := |s| - |t|;
    j := i + |r|;
    forall k | j <= k < |s|
      ensures IsSpace(s[k])
    {
      assert s[k] == t[k - i];
    }
    assert r == s[i..j];
  }

  /** `sep` occurs in `s` at index `i`. */
  predicate At(s: string, sep: string, i: int)
  {
    0 <= i && i + |sep| <= |s| && s[i..i + |sep|] == sep
  }

  /** `sep in s`. */
  predicate Contains(s: string, sep: string)
  {
    exists i | 0 <= i <= |s| :: At(s, sep, i)
  }

  /** No occurrence of `sep` starts in `[lo, hi)`. */
  predicate Absent(s: string, sep: string, lo: int, hi: int)
  {
    forall j | lo <= j < hi :: !At(s, sep, j)
  }

  /** `s.find(sep)`: the first occurrence at or after `from`. */
  function Find(s: string, sep: string, from: nat): (r: Option<nat>)
    ensures r.Some? ==>
      (from <= r.value && At(s, sep, r.value) && Absent(s, sep, from, r.value))
    ensures r.None? ==> Absent(s, sep, from, |s| + 1)
    decreases |s| - from
  {
    if from + |sep| > |s| then None
    else if s[from..from + |sep|] == sep then Some(from)
    else Find(s, sep, from + 1)
  }

  /** Text appended after an occurrence does not move the first occurrence. */
  lemma {:induction false} FindExtends(s: string, t: string, sep: string, from: nat)
    requires Find(s, sep, from).Some?
    ensures Find(s + t, sep, from) == Find(s, sep, from)
    decreases |s| - from
  {
    assert from + |sep| <= |s|;
    assert (s + t)[from..from + |sep|] == s[from..from + |sep|];
    if s[from..from + |sep|] != sep {
      FindExtends(s, t, sep, from + 1);
    }
  }

  /** `s.rfind(sep)`: the last occurrence starting before `upto`. */
  function FindLast(s: string, sep: string, upto: nat): (r: Option<nat>)
    ensures r.Some? ==>
      (r.value < upto && At(s, sep, r.value) && Absent(s, sep, r.value + 1, upto))
    ensures r.None? ==> Absent(s, sep, 0, upto)
    decreases upto
  {
    if upto == 0 then None
    else if At(s, sep, upto - 1) then Some(upto - 1)
    else FindLast(s, sep, upto - 1)
  }

  /** `s.split(sep)` for a non-empty separator. */
  function Split(s: string, sep: string): (parts: seq<string>)
    requires |sep| > 0
    ensures |parts| >= 1
    decreases |s|
  {
    match Find(s, sep, 0)
    case None => [s]
    case Some(i) => [s[..i]] + Split(s[i + |sep|..], sep)
  }

  /** `sep.join(parts)`. */
  function Join(parts: seq<string>, sep: string): string
  {
    if |parts| == 0 then ""
    else if |parts| == 1 then parts[0]
    else parts[0] + sep + Join(parts[1..], sep)
  }

  /** Joining the pieces of a split gives the string back. */
  lemma {:induction false} JoinSplit(s: string, sep: string)
    requires |sep| > 0
    ensures Join(Split(s, sep), sep) == s
    decreases |s|
  {
    var f := Find(s, sep, 0);
    if f.Some? {
      var i := f.value;
      var rest := s[i + |sep|..];
      SplitAt(s, sep, i);
      JoinSplit(rest, sep);
      JoinCons(s[..i], Split(rest, sep), sep);
    }
  }

  /** One step of `split`: the text before the first occurrence, then the rest. */
  lemma SplitAt(s: string, sep: string, i: nat)
    requires |sep| > 0 && Find(s, sep, 0) == Some(i)
    ensures Split(s, sep) == [s[..i]] + Split(s[i + |sep|..], sep)
    ensures s == s[..i] + sep + s[i + |sep|..]
  {
    assert s[i..i + |sep|] == sep;
    assert s == s[..i] + s[i..i + |sep|] + s[i + |sep|..];
  }

  lemma JoinCons(a: string, parts: seq<string>, sep: string)
    requires |parts| >= 1
    ensures Join([a] + parts, sep) == a + sep + Join(parts, sep)
  {
    assert ([a] + parts)[1..] == parts;
  }

  /** A string that does not contain the separator is not split. */
  lemma FindAbsent(s: string, sep: string)
    ensures Find(s, sep, 0).Some? ==> Contains(s, sep)
  {
    var f := Find(s, sep, 0);
    if f.Some? {
      assert At(s, sep, f.value);
    }
  }

  /** Splitting a join on a one-character separator that occurs in no piece gives
    * the pieces back. */
  lemma {:induction false} SplitJoin(parts: seq<string>, sep: string)
    requires |sep| == 1 && |parts| >= 1
    requires forall k | 0 <= k < |parts| :: !Contains(parts[k], sep)
    ensures Split(Join(parts, sep), sep) == parts
    decreases |parts|
  {
    var s := Join(parts, sep);
    NoneIsAbsent(parts[0], sep);
    if |parts| == 1 {
      FindAbsent(s, sep);
    } else {
      var p := parts[0];
      var rest := Join(parts[1..], sep);
      assert s == p + sep + rest;
      forall j | 0 <= j < |p|
        ensures !At(s, sep, j)
      {
        assert p[j] in p;
        assert s[j..j + 1][0] == s[j] == p[j];
      }
      assert At(s, sep, |p|);
      assert Find(s, sep, 0) == Some(|p|);
      assert s[|p| + 1..] == rest;
      assert s[..|p|] == p;
      assert Split(s, sep) == [p] + Split(rest, sep);
      SplitJoin(parts[1..], sep);
    }
  }

  /** For a one-character separator, `Contains` is membership of that character. */
  lemma NoneIsAbsent(s: string, sep: string)
    requires |sep| == 1
    ensures Contains(s, sep) <==> sep[0] in s
  {
    if sep[0] in s {
      var i :| 0 <= i < |s| && s[i] == sep[0];
      assert s[i..i + 1] == sep;
      assert At(s, sep, i);
    }
  }

  /** `s.split(sep, 1)` when `sep in s`: the text before and after the first
    * occurrence. */
  function SplitFirst(s: string, sep: string): (r: (string, string))
    requires |sep| > 0 && Contains(s, sep)
    ensures s == r.0 + sep + r.1
    ensures !Contains(r.0, sep)
  {
    var i := Find(s, sep, 0).value;
    FirstIsClean(s, sep, i);
    (s[..i], s[i + |sep|..])
  }

  lemma FirstIsClean(s: string, sep: string, i: nat)
    requires |sep| > 0 && At(s, sep, i) && Absent(s, sep, 0, i)
    ensures !Contains(s[..i], sep)
  {
    if Contains(s[..i], sep) {
      var j :| 0 <= j <= i && At(s[..i], sep, j);
      assert s[..i][j..j + |sep|] == s[j..j + |sep|];
      assert At(s, sep, j);
    }
  }

  /** `s.rsplit(sep, 1)` when `sep in s`: the text before and after the last
    * occurrence. */
  function SplitLast(s: string, sep: string): (r: (string, string))
    requires |sep| > 0 && Contains(s, sep)
    ensures s == r.0 + sep + r.1
    ensures !Contains(r.1, sep)
  {
    var i := FindLast(s, sep, |s| + 1).value;
    LastIsClean(s, sep, i);
    (s[..i], s[i + |sep|..])
  }

  lemma LastIsClean(s: string, sep: string, i: nat)
    requires |sep| > 0 && At(s, sep, i) && Absent(s, sep, i + 1, |s| + 1)
    ensures !Contains(s[i + |sep|..], sep)
  {
    if Contains(s[i + |sep|..], sep) {
      var t := s[i + |sep|..];
      var j :| 0 <= j <= |t| && At(t, sep, j);
      assert t[j..j + |sep|] == s[i + |sep| + j..i + |sep| + j + |sep|];
      assert At(s, sep, i + |sep| + j);
    }
  }

  /** `split(sep, 1)` of a text whose first part cannot start an occurrence of
    * `sep` gives that part and the rest. */
  lemma SplitFirstOf(a: string, sep: string, rest: string)
    requires |sep| > 0 && sep[0] !in a
    ensures Contains(a + sep + rest, sep)
    ensures SplitFirst(a + sep + rest, sep) == (a, rest)
  {
    var s := a + sep + rest;
    assert s[|a|..|a| + |sep|] == sep;
    assert At(s, sep, |a|);
    forall j | 0 <= j < |a|
      ensures !At(s, sep, j)
    {
      assert s[j] == a[j];
    }
    var i := Find(s, sep, 0).value;
    assert i == |a|;
    assert s[..i] == a && s[i + |sep|..] == rest;
  }

  /** `rsplit(sep, 1)` of a text whose last part cannot hold the second
    * character of `sep` gives the first part and that last part. */
  lemma SplitLastOf(a: string, sep: string, rest: string)
    requires |sep| >= 2 && sep[1] !in sep[2..] && sep[1] !in rest
    ensures Contains(a + sep + rest, sep)
    ensures SplitLast(a + sep + rest, sep) == (a, rest)
  {
    var s := a + sep + rest;
    assert s[|a|..|a| + |sep|] == sep;
    assert At(s, sep, |a|);
    var tail := s[|a| + 2..];
    assert tail == sep[2..] + rest;
    forall j | |a| < j <= |s|
      ensures !At(s, sep, j)
    {
      if j + |sep| <= |s| {
        assert s[j + 1] == tail[j - |a| - 1];
        assert s[j..j + |sep|][1] != sep[1];
      }
    }
    var i := FindLast(s, sep, |s| + 1).value;
    assert i == |a|;
    assert s[..i] == a && s[i + |sep|..] == rest;
  }

  /** `s.startswith(p)`. */
  predicate StartsWith(s: string, p: string)
  {
    |p| <= |s| && s[..|p|] == p
  }

  /** An upper-case letter of the ASCII and Latin-1 ranges (`À` to `Þ`,
    * except the multiplication sign). */
  predicate IsUpperLetter(c: char)
  {
    'A' <= c <= 'Z' || ('\U{00C0}' <= c <= '\U{00DE}' && c != '\U{00D7}')
  }

  /** A lower-case letter of the ASCII and Latin-1 ranges (`ß` to `ÿ`,
    * except the division sign). */
  predicate IsLowerLetter(c: char)
  {
    'a' <= c <= 'z' || ('\U{00DF}' <= c <= '\U{00FF}' && c != '\U{00F7}')
  }

  /** A letter that has case. */
  predicate IsCased(c: char)
  {
    IsUpperLetter(c) || IsLowerLetter(c)
  }

  /** The lower-case letter of an upper-case one. */
  function LowerChar(c: char): (r: char)
    ensures IsUpperLetter(c) ==> IsLowerLetter(r)
    ensures !IsUpperLetter(c) ==> r == c
    ensures IsCased(r) <==> IsCased(c)
    ensures !IsUpperLetter(r)
  {
    if IsUpperLetter(c) then (c as int + 32) as char else c
  }

  /** The upper-case letter of a lower-case one; `ß` and `ÿ`, whose upper
    * case lies outside Latin-1 or spells two letters, are kept. */
  function UpperChar(c: char): (r: char)
    ensures IsLowerLetter(c) && c != '\U{00DF}' && c != '\U{00FF}' ==> IsUpperLetter(r)
    ensures IsCased(r) <==> IsCased(c)
    ensures !IsCased(c) ==> r == c
    ensures IsLowerLetter(r) ==> r == c && (c == '\U{00DF}' || c == '\U{00FF}')
  {
    if IsLowerLetter(c) && c != '\U{00DF}' && c != '\U{00FF}' then (c as int - 32) as char else c
  }

  /** `lower()`, on ASCII and Latin-1 letters. */
  function Lower(s: string): (r: string)
    ensures |r| == |s| && forall k | 0 <= k < |s| :: r[k] == LowerChar(s[k])
  {
    seq(|s|, k requires 0 <= k < |s| => LowerChar(s[k]))
  }

  /** `str.title()`: a cased letter right after a cased letter is lowered,
    * every other letter is raised, and the other characters are kept. */
  function Title(s: string): (r: string)
    ensures |r| == |s|
  {
    seq(|s|, k requires 0 <= k < |s| => TitleChar(k > 0 && IsCased(s[k - 1]), s[k]))
  }

  /** What `Title` does at each position: case is kept exactly where the
    * input has it, other characters are untouched, letters inside a word are
    * never upper case, and a letter starting a word is lower case only when it
    * has no single upper-case letter. */
  lemma TitleShape(s: string)
    ensures forall k | 0 <= k < |s| :: IsCased(Title(s)[k]) <==> IsCased(s[k])
    ensures forall k | 0 <= k < |s| && !IsCased(s[k]) :: Title(s)[k] == s[k]
    ensures forall k | 0 < k < |s| && IsCased(s[k - 1]) :: !IsUpperLetter(Title(s)[k])
    ensures forall k | 0 <= k < |s| && (k == 0 || !IsCased(s[k - 1])) && IsLowerLetter(Title(s)[k]) ::
      Title(s)[k] == s[k] && (s[k] == '\U{00DF}' || s[k] == '\U{00FF}')
  {
    var r := Title(s);
    forall k | 0 <= k < |s|
      ensures IsCased(r[k]) <==> IsCased(s[k])
      ensures !IsCased(s[k]) ==> r[k] == s[k]
      ensures k > 0 && IsCased(s[k - 1]) ==> !IsUpperLetter(r[k])
      ensures (k == 0 || !IsCased(s[k - 1])) && IsLowerLetter(r[k]) ==> r[k] == s[k] && (s[k] == '\U{00DF}' || s[k] == '\U{00FF}')
    {
      assert r[k] == TitleChar(k > 0 && IsCased(s[k - 1]), s[k]);
    }
  }

  /** Title-casing a title-cased string changes nothing. */
  lemma TitleIdempotent(s: string)
    ensures Title(Title(s)) == Title(s)
  {
    var t := Title(s);
    TitleShape(s);
    forall k | 0 <= k < |s|
      ensures Title(t)[k] == t[k]
    {
      assert t[k] == TitleChar(k > 0 && IsCased(s[k - 1]), s[k]);
      assert Title(t)[k] == TitleChar(k > 0 && IsCased(t[k - 1]), t[k]);
    }
  }

  /** One character of `str.title()`, given whether the one before it is cased. */
  function TitleChar(afterCased: bool, c: char): (r: char)
    ensures IsCased(r) <==> IsCased(c)
    ensures !IsCased(c) ==> r == c
    ensures afterCased ==> !IsUpperLetter(r)
    ensures !afterCased && IsLowerLetter(r) ==> r == c && (c == '\U{00DF}' || c == '\U{00FF}')
  {
    if afterCased then LowerChar(c) else UpperChar(c)
  }

  /** A non-empty run without whitespace. */
  predicate IsWord(w: string)
  {
    |w| > 0 && forall c | c in w :: !IsSpace(c)
  }

  /** `s.split()`: the maximal runs of non-whitespace, in order. */
  function Words(s: string): seq<string>
    decreases |s|
  {
    var t := StripStart(s);
    if |t| == 0 then []
    else
      var n := WordLength(t);
      [t[..n]] + Words(t[n..])
  }

  /** Every piece `split()` returns is a non-empty run without whitespace. */
  lemma {:induction false} WordsAreWords(s: string)
    ensures forall k | 0 <= k < |Words(s)| :: IsWord(Words(s)[k])
    decreases |s|
  {
    var t := StripStart(s);
    if |t| > 0 {
      var n := WordLength(t);
      FirstWord(t);
      WordsAreWords(t[n..]);
      assert Words(s) == [t[..n]] + Words(t[n..]);
      AllCons(t[..n], Words(t[n..]), IsWord);
    }
  }

  /** The run of non-whitespace at the start of a text that does not start with
    * whitespace is a word. */
  lemma FirstWord(t: string)
    requires |t| > 0 && !IsSpace(t[0])
    ensures IsWord(t[..WordLength(t)])
  {
    var w := t[..WordLength(t)];
    forall c | c in w
      ensures !IsSpace(c)
    {
      var k :| 0 <= k < |w| && w[k] == c;
      assert t[k] == c;
    }
  }

  /** The length of the run of non-whitespace at the start of `t`. */
  function WordLength(t: string): (n: nat)
    ensures n <= |t| && forall k | 0 <= k < n :: !IsSpace(t[k])
    ensures n < |t| ==> IsSpace(t[n])
    ensures |t| > 0 && !IsSpace(t[0]) ==> n > 0
    decreases |t|
  {
    if |t| == 0 || IsSpace(t[0]) then 0 else 1 + WordLength(t[1..])
  }

  /** The whitespace-separated join of non-empty words without whitespace splits
    * back into those words. */
  lemma {:induction false} WordsOfJoin(ws: seq<string>)
    requires forall k | 0 <= k < |ws| :: IsWord(ws[k])
    ensures Words(Join(ws, " ")) == ws
    decreases |ws|
  {
    if |ws| == 1 {
      SingleWord(ws[0]);
    } else if |ws| > 1 {
      WordsOfJoin(ws[1..]);
      WordsOfJoinStep(ws);
    }
  }

  /** The first word, then the words of the rest of the join. */
  lemma WordsOfJoinStep(ws: seq<string>)
    requires |ws| > 1 && IsWord(ws[0])
    requires Words(Join(ws[1..], " ")) == ws[1..]
    ensures Words(Join(ws, " ")) == ws
  {
    var rest := Join(ws[1..], " ");
    assert Join(ws, " ") == ws[0] + " " + rest;
    WordThenRest(ws[0], rest);
    HeadTail(ws);
  }

  /** A lone word is its own only word. */
  lemma SingleWord(w: string)
    requires IsWord(w)
    ensures Words(w) == [w]
  {
    WordOnly(w, "");
    assert w + "" == w;
    assert w[|w|..] == "";
    assert Words(w) == [w] + Words("");
  }

  /** A word, a space and a tail: the word comes first, then the tail's words. */
  lemma WordThenRest(w: string, rest: string)
    requires IsWord(w)
    ensures Words(w + " " + rest) == [w] + Words(rest)
  {
    var s := w + " " + rest;
    assert s == w + (" " + rest);
    WordOnly(w, " " + rest);
    assert s[..|w|] == w;
    assert s[|w|..] == " " + rest;
    assert Words(s) == [w] + Words(" " + rest);
    WordsSkipsSpace(" " + rest);
    assert (" " + rest)[1..] == rest;
  }

  /** A word followed by a whitespace-led tail is read off first. */
  lemma WordOnly(w: string, tail: string)
    requires IsWord(w)
    requires |tail| == 0 || IsSpace(tail[0])
    ensures StripStart(w + tail) == w + tail
    ensures WordLength(w + tail) == |w|
  {
    WordPrefix(w, tail);
  }

  lemma {:induction false} WordPrefix(w: string, tail: string)
    requires forall c | c in w :: !IsSpace(c)
    requires |tail| == 0 || IsSpace(tail[0])
    ensures WordLength(w + tail) == |w|
    decreases |w|
  {
    if |w| > 0 {
      assert (w + tail)[1..] == w[1..] + tail;
      WordPrefix(w[1..], tail);
    } else {
      assert w + tail == tail;
    }
  }

  /** Leading whitespace does not change the words. */
  lemma WordsSkipsSpace(s: string)
    requires |s| > 0 && IsSpace(s[0])
    ensures Words(s) == Words(s[1..])
  {
  }

  /** The value of a run of ASCII digits, most significant first. */
  function DigitsValue(ds: string): nat
    requires forall c | c in ds :: IsDigit(c)
    decreases |ds|
  {
    if |ds| == 0 then 0
    else
      var d := ds[|ds| - 1];
      assert d in ds && IsDigit(d);
      assert d as int - '0' as int >= 0;
      DigitsValue(ds[..|ds| - 1]) * 10 + (d as int - '0' as int)
  }

  predicate AllDigits(ds: string)
  {
    |ds| > 0 && forall c | c in ds :: IsDigit(c)
  }

  /** `int(s)`: surrounding whitespace, an optional sign and ASCII digits;
    * anything else raises `ValueError` (`None`). */
  function ParseInt(s: string): Option<int>
  {
    var t := Strip(s);
    if |t| > 0 && (t[0] == '-' || t[0] == '+') then
      if AllDigits(t[1..]) then Some(if t[0] == '-' then -(DigitsValue(t[1..]) as int) else DigitsValue(t[1..])) else None
    else if AllDigits(t) then Some(DigitsValue(t))
    else None
  }

  /** `str(n)` for a natural number. */
  function ShowNat(n: nat): (ds: string)
    ensures AllDigits(ds)
    decreases n
  {
    if n < 10 then [('0' as int + n) as char]
    else ShowNat(n / 10) + [('0' as int + n % 10) as char]
  }

  /** Reading back the decimal digits of a number gives the number. */
  lemma {:induction false} ShowNatValue(n: nat)
    ensures DigitsValue(ShowNat(n)) == n
    decreases n
  {
    if n >= 10 {
      ShowNatValue(n / 10);
      var ds := ShowNat(n);
      assert ds[..|ds| - 1] == ShowNat(n / 10);
    }
  }

  /** `int(str(n))` returns `n`. */
  lemma ParseShowNat(n: nat)
    ensures ParseInt(ShowNat(n)) == Some(n)
  {
    ShowNatValue(n);
    ParseDigits(ShowNat(n));
  }

  /** `int` of a run of digits is its value. */
  lemma ParseDigits(ds: string)
    requires AllDigits(ds)
    ensures ParseInt(ds) == Some(DigitsValue(ds))
  {
    StripDigits(ds);
    assert ds[0] in ds;
  }

  /** Digits carry no whitespace to strip. */
  lemma StripDigits(ds: string)
    requires AllDigits(ds)
    ensures Strip(ds) == ds
  {
    assert ds[0] in ds && ds[|ds| - 1] in ds;
    assert StripStart(ds) == ds;
    assert StripEnd(ds) == ds;
  }

  // ---------------------------------------------------------------------------
  // Floats as text
  // ---------------------------------------------------------------------------

  /** Python's `str` of a float, outside the model. */
  type Show = real -> string

  /** The strict part of `float(s)`: the number a text without surrounding
    * whitespace spells, or `None` where Python raises ValueError. Outside the
    * model. */
  type Read = string -> Option<real>

  /** `float(s)`, which ignores surrounding whitespace. */
  function Float(s: string, read: Read): Option<real>
  {
    read(Strip(s))
  }

  /** `float(str(x)) == x` for the one number `x`. Python promises this for
    * every float; the model asks it only of the numbers a round trip writes. */
  ghost predicate ReadsBack(show: Show, read: Read, x: real)
  {
    read(show(x)) == Some(x)
  }

  /** A text with no `\n` or `\r`, the characters at which iterating over a
    * file opened in text mode ends a line. */
  predicate OneLine(s: string)
  {
    '\n' !in s && '\r' !in s
  }

  /** A non-empty text that neither starts nor ends with whitespace. */
  predicate Trimmed(t: string)
  {
    |t| > 0 && !IsSpace(t[0]) && !IsSpace(t[|t| - 1])
  }

  /** Stripping a trimmed text followed by whitespace leaves the text. */
  lemma StripTrimmed(t: string, tail: string)
    requires Trimmed(t)
    requires forall k | 0 <= k < |tail| :: IsSpace(tail[k])
    ensures Strip(t + tail) == t
  {
    var s := t + tail;
    var r := Strip(s);
    StripShape(s);
    var i, j :| 0 <= i <= j <= |s| && r == s[i..j]
      && (forall k | 0 <= k < i :: IsSpace(s[k])) && (forall k | j <= k < |s| :: IsSpace(s[k]));
    assert s[0] == t[0] && s[|t| - 1] == t[|t| - 1];
    assert i == 0;
    assert j >= |t|;
  }

  /** `float(str(x)) == x` also through the whitespace `float` ignores. */
  lemma FloatOfShow(x: real, show: Show, read: Read)
    requires Trimmed(show(x)) && ReadsBack(show, read, x)
    ensures Float(show(x), read) == Some(x)
  {
    StripTrimmed(show(x), "");
    assert show(x) + "" == show(x);
  }

  /** `str` of a float is trimmed, one line, and has no `;`. */
  ghost predicate Separable(show: Show)
  {
    forall x: real :: Trimmed(show(x)) && OneLine(show(x)) && ';' !in show(x)
  }
}
