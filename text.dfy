/** The Python `str` methods the modelled code relies on, over `seq<char>`.
    Character classes are ASCII: `isspace`, `lower`, `upper` and `title` on
    non-ASCII characters are not part of this model. */
module Text {

  /** Python's `str.isspace` on ASCII: tab, line feed, vertical tab, form feed,
      carriage return, the separators 0x1C-0x1F, and space. */
  predicate IsSpace(c: char) {
    9 <= c as int <= 13 || 28 <= c as int <= 32
  }

  predicate AllSpace(s: string) {
    forall i | 0 <= i < |s| :: IsSpace(s[i])
  }

  predicate StartsWith(s: string, prefix: string) {
    |prefix| <= |s| && s[..|prefix|] == prefix
  }

  predicate EndsWith(s: string, suffix: string) {
    |suffix| <= |s| && s[|s| - |suffix|..] == suffix
  }

  /** Python's `sub in s`: `sub` starts at some position of `s`. */
  predicate Contains(s: string, sub: string) {
    StartsWith(s, sub) || (s != [] && Contains(s[1..], sub))
  }

  /** `str.lstrip()`: drops the leading run of whitespace and nothing else. */
  function LStrip(s: string): (r: string)
    ensures |r| <= |s| && r == s[|s| - |r|..]
    ensures AllSpace(s[..|s| - |r|])
    ensures r == [] || !IsSpace(r[0])
  {
    if s != [] && IsSpace(s[0]) then LStrip(s[1..]) else s
  }

  /** `str.rstrip()`: drops the trailing run of whitespace and nothing else. */
  function RStrip(s: string): (r: string)
    ensures |r| <= |s| && r == s[..|r|]
    ensures AllSpace(s[|r|..])
    ensures r == [] || !IsSpace(r[|r| - 1])
  {
    if s != [] && IsSpace(s[|s| - 1]) then
      var init := s[..|s| - 1];
      var r := RStrip(init);
      assert r == s[..|r|] by {
        assert init[..|r|] == s[..|r|];
      }
      assert AllSpace(s[|r|..]) by {
        forall k | |r| <= k < |s| ensures IsSpace(s[k]) {
          if k < |s| - 1 {
            assert s[k] == init[|r|..][k - |r|];
          }
        }
      }
      r
    else s
  }

  /** `str.strip()`: the result is empty exactly when `s` is all whitespace,
      and otherwise begins and ends with a non-space character; it is a
      slice of `s` with only whitespace before and after it. */
  function Strip(s: string): (r: string)
    ensures AllSpace(s) <==> r == []
    ensures r == [] || (!IsSpace(r[0]) && !IsSpace(r[|r| - 1]))
    ensures |r| <= |s|
    ensures exists i, j :: 0 <= i <= j <= |s| && r == s[i..j] && AllSpace(s[..i]) && AllSpace(s[j..])
  {
    var l := LStrip(s);
    var r := RStrip(l);
    TrimmedSlice(s, l, r);
    StripEnds(s);
    StripEmpty(s);
    r
  }

  /** A prefix `r` of a suffix `l` of `s`, with only whitespace around it,
      is a slice of `s` with only whitespace around it. */
  lemma TrimmedSlice(s: string, l: string, r: string)
    requires |l| <= |s| && l == s[|s| - |l|..] && AllSpace(s[..|s| - |l|])
    requires |r| <= |l| && r == l[..|r|] && AllSpace(l[|r|..])
    ensures exists i, j :: 0 <= i <= j <= |s| && r == s[i..j] && AllSpace(s[..i]) && AllSpace(s[j..])
  {
    var i := |s| - |l|;
    var j := i + |r|;
    assert r == s[i..j];
    assert l[|r|..] == s[j..];
  }

  /** What is left neither starts nor ends with whitespace. */
  lemma StripEnds(s: string)
    ensures var r := RStrip(LStrip(s)); r == [] || (!IsSpace(r[0]) && !IsSpace(r[|r| - 1]))
  {
    var l := LStrip(s);
    var r := RStrip(l);
    assert r != [] ==> r[0] == l[0];
  }

  /** Nothing is left exactly when all is whitespace. */
  lemma StripEmpty(s: string)
    ensures AllSpace(s) <==> RStrip(LStrip(s)) == []
  {
    var l := LStrip(s);
    assert l != [] ==> l[0] == s[|s| - |l|];
    if RStrip(l) == [] {
      assert l == [];
      forall k | 0 <= k < |s| ensures IsSpace(s[k]) {
        assert s[k] == s[..|s|][k];
      }
    }
  }

  /** `str.rstrip(c)` for a single character `c`. */
  function TrimRight(s: string, c: char): (r: string)
    ensures |r| <= |s| && r == s[..|r|]
    ensures forall i | |r| <= i < |s| :: s[i] == c
    ensures r == [] || r[|r| - 1] != c
  {
    if s != [] && s[|s| - 1] == c then TrimRight(s[..|s| - 1], c) else s
  }

  /** `sep.join(parts)`. */
  function Join(parts: seq<string>, sep: string): (r: string)
    ensures parts == [] ==> r == ""
    ensures parts != [] ==> StartsWith(r, parts[0])
  {
    if |parts| == 0 then ""
    else if |parts| == 1 then parts[0]
    else parts[0] + sep + Join(parts[1..], sep)
  }

  /** `s.split(sep)` for a one-character separator: never empty, and no
      piece holds the separator. */
  function Split(s: string, sep: char): (parts: seq<string>)
    ensures |parts| >= 1
    ensures forall k | 0 <= k < |parts| :: sep !in parts[k]
  {
    if s == [] then [""]
    else
      var rest := Split(s[1..], sep);
      if s[0] == sep then [""] + rest
      else [[s[0]] + rest[0]] + rest[1..]
  }

  /** Joining the pieces of a split gives back the text. */
  lemma {:induction false} JoinSplit(s: string, sep: char)
    ensures Join(Split(s, sep), [sep]) == s
  {
    if s != [] {
      var rest := Split(s[1..], sep);
      JoinSplit(s[1..], sep);
      assert Join(rest, [sep]) == s[1..];
      assert s == [s[0]] + s[1..];
      if s[0] == sep {
        assert Split(s, sep) == [""] + rest;
        assert ([""] + rest)[1..] == rest;
        assert Join([""] + rest, [sep]) == "" + [sep] + Join(rest, [sep]);
      } else {
        var parts := Split(s, sep);
        assert parts == [[s[0]] + rest[0]] + rest[1..];
        assert parts[0] == [s[0]] + rest[0] && parts[1..] == rest[1..];
        if |rest| == 1 {
          assert Join(parts, [sep]) == [s[0]] + rest[0];
        } else {
          assert Join(parts, [sep]) == [s[0]] + rest[0] + [sep] + Join(rest[1..], [sep]);
          assert Join(rest, [sep]) == rest[0] + [sep] + Join(rest[1..], [sep]);
        }
      }
    }
  }

  /** Splitting a joined text gives back its pieces when no piece holds the
      separator. */
  lemma {:induction false} SplitJoin(parts: seq<string>, sep: char)
    requires |parts| >= 1
    requires forall k | 0 <= k < |parts| :: sep !in parts[k]
    ensures Split(Join(parts, [sep]), sep) == parts
    decreases |Join(parts, [sep])|, |parts|
  {
    var s := Join(parts, [sep]);
    if parts[0] == [] {
      if |parts| > 1 {
        SplitJoin(parts[1..], sep);
        assert s == [sep] + Join(parts[1..], [sep]);
        assert s[0] == sep && s[1..] == Join(parts[1..], [sep]);
        assert Split(s, sep) == [""] + Split(s[1..], sep);
        assert [""] + parts[1..] == parts;
      }
    } else {
      var w := parts[0][1..];
      var parts' := [w] + parts[1..];
      assert parts'[1..] == parts[1..];
      assert parts[0] == [parts[0][0]] + w;
      assert s == [parts[0][0]] + Join(parts', [sep]) by {
        if |parts| > 1 {
          assert s == parts[0] + [sep] + Join(parts[1..], [sep]);
          assert Join(parts', [sep]) == w + [sep] + Join(parts[1..], [sep]);
        }
      }
      assert sep !in w by {
        assert forall c | c in w :: c in parts[0];
      }
      assert parts[0][0] != sep by {
        assert parts[0][0] in parts[0];
      }
      SplitJoin(parts', sep);
      var rest := Split(s[1..], sep);
      assert s[0] == parts[0][0] && s[1..] == Join(parts', [sep]);
      assert rest == parts';
      assert Split(s, sep) == [[s[0]] + rest[0]] + rest[1..];
      assert [[s[0]] + rest[0]] + rest[1..] == [parts[0]] + parts[1..];
      assert [parts[0]] + parts[1..] == parts;
    }
  }

  predicate IsUpper(c: char) { 'A' <= c <= 'Z' }
  predicate IsLower(c: char) { 'a' <= c <= 'z' }
  predicate IsLetter(c: char) { IsUpper(c) || IsLower(c) }

  function LowerChar(c: char): char {
    if IsUpper(c) then (c as int + 32) as char else c
  }

  function UpperChar(c: char): char {
    if IsLower(c) then (c as int - 32) as char else c
  }

  /** `str.lower()`: no upper-case letter is left, every upper-case letter
      becomes its lower-case partner and every other character stays. */
  function Lower(s: string): (r: string)
    ensures |r| == |s|
    ensures forall i | 0 <= i < |r| :: !IsUpper(r[i])
    ensures forall i | 0 <= i < |s| :: if IsUpper(s[i]) then IsLower(r[i]) && UpperChar(r[i]) == s[i] else r[i] == s[i]
  {
    seq(|s|, i requires 0 <= i < |s| => LowerChar(s[i]))
  }

  /** `str.title()`: a letter that follows a letter is lower-cased, any other
      letter is upper-cased. */
  function Title(s: string): (r: string)
    ensures |r| == |s|
    ensures forall i | 0 <= i < |s| :: !IsLetter(s[i]) ==> r[i] == s[i]
    ensures forall i | 0 <= i < |s| :: IsLetter(s[i]) ==> LowerChar(r[i]) == LowerChar(s[i])
    ensures forall i | 0 <= i < |s| :: IsLetter(s[i]) ==>
      if i > 0 && IsLetter(s[i - 1]) then IsLower(r[i]) else IsUpper(r[i])
  {
    TitleAfterCases(s, false);
    TitleAfter(s, false)
  }

  /** `Title` of `s` when the character before it was a letter or not. */
  function TitleAfter(s: string, afterLetter: bool): string {
    if s == [] then ""
    else
      var c := s[0];
      var t := if !IsLetter(c) then c else if afterLetter then LowerChar(c) else UpperChar(c);
      [t] + TitleAfter(s[1..], IsLetter(c))
  }

  /** Character by character: non-letters stay, a letter keeps its identity
      and is lower-cased after a letter, upper-cased otherwise. */
  lemma {:induction false} TitleAfterCases(s: string, afterLetter: bool)
    ensures var r := TitleAfter(s, afterLetter);
      && |r| == |s|
      && (forall i | 0 <= i < |s| :: !IsLetter(s[i]) ==> r[i] == s[i])
      && (forall i | 0 <= i < |s| :: IsLetter(s[i]) ==> LowerChar(r[i]) == LowerChar(s[i]))
      && (forall i | 0 <= i < |s| :: IsLetter(s[i]) ==>
            if (if i == 0 then afterLetter else IsLetter(s[i - 1])) then IsLower(r[i]) else IsUpper(r[i]))
  {
    if s != [] {
      var r := TitleAfter(s, afterLetter);
      var rest := TitleAfter(s[1..], IsLetter(s[0]));
      TitleAfterCases(s[1..], IsLetter(s[0]));
      var c := s[0];
      assert r[0] == if !IsLetter(c) then c else if afterLetter then LowerChar(c) else UpperChar(c);
      if IsLetter(c) {
        assert IsUpper(c) ==> IsLower((c as int + 32) as char);
        assert IsLower(c) ==> IsUpper((c as int - 32) as char);
      }
      forall i | 1 <= i < |s|
        ensures r[i] == rest[i - 1] && s[i] == s[1..][i - 1]
      {
      }
      forall i | 1 <= i < |s| && IsLetter(s[i])
        ensures if IsLetter(s[i - 1]) then IsLower(r[i]) else IsUpper(r[i])
      {
        if i > 1 {
          assert s[i - 1] == s[1..][i - 2];
        }
      }
    }
  }

  /** `s.replace(a, b)` for single characters. */
  function ReplaceChar(s: string, a: char, b: char): string {
    seq(|s|, i requires 0 <= i < |s| => if s[i] == a then b else s[i])
  }

  /** `" " * n`. */
  function Spaces(n: nat): string {
    seq(n, _ => ' ')
  }
}
