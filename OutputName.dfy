/** The name of the per-recording output folder (main.py): the last
    `/`-separated component of the input path, cut before its first `.`.
    `str.split`, `str.find` and slicing are modelled for one separator
    character. */
module OutputName {

  /** `s.find(c)`: the index of the first `c` in `s`, or -1. */
  function Find(s: string, c: char): (r: int)
    ensures -1 <= r < |s|
    ensures r == -1 <==> c !in s
    ensures r >= 0 ==> s[r] == c && forall k :: 0 <= k < r ==> s[k] != c
  {
    if s == [] then -1
    else if s[0] == c then 0
    else
      var k := Find(s[1..], c);
      if k == -1 then -1 else k + 1
  }

  /** `s.split(sep)` for a one-character separator: the pieces between the
      separators, empty pieces included. Built one character at a time: a
      separator opens a new piece, any other character joins the first one. */
  function Split(s: string, sep: char): (parts: seq<string>)
    ensures |parts| >= 1
  {
    if s == [] then [[]]
    else
      var rest := Split(s[1..], sep);
      if s[0] == sep then [[]] + rest
      else [[s[0]] + rest[0]] + rest[1..]
  }

  /** No piece of a split holds the separator. */
  lemma {:induction false} SplitPiecesLackSeparator(s: string, sep: char)
    ensures forall k :: 0 <= k < |Split(s, sep)| ==> sep !in Split(s, sep)[k]
  {
    if s != [] {
      SplitPiecesLackSeparator(s[1..], sep);
    }
  }

  /** `sep.join(parts)`. */
  function Join(parts: seq<string>, sep: char): string
  {
    if parts == [] then []
    else if |parts| == 1 then parts[0]
    else parts[0] + [sep] + Join(parts[1..], sep)
  }

  /** Splitting and joining back with the same separator gives the original string. */
  lemma {:induction false} JoinSplit(s: string, sep: char)
    ensures Join(Split(s, sep), sep) == s
  {
    if s != [] {
      var t := s[1..];
      var rest := Split(t, sep);
      JoinSplit(t, sep);
      var parts := Split(s, sep);
      if s[0] == sep {
        assert parts == [[]] + rest;
        assert parts[1..] == rest;
        assert Join(parts, sep) == [] + [sep] + t;
      } else if |rest| == 1 {
        assert parts == [[s[0]] + rest[0]];
        assert Join(parts, sep) == [s[0]] + t;
      } else {
        assert parts == [[s[0]] + rest[0]] + rest[1..];
        assert parts[1..] == rest[1..];
        assert Join(rest, sep) == rest[0] + [sep] + Join(rest[1..], sep);
        assert Join(parts, sep) == [s[0]] + rest[0] + [sep] + Join(rest[1..], sep);
      }
      assert s == [s[0]] + t;
    }
  }

  /** A string without the separator splits into itself alone. */
  lemma {:induction false} SplitWithoutSeparator(s: string, sep: char)
    requires sep !in s
    ensures Split(s, sep) == [s]
  {
    if s != [] {
      SplitWithoutSeparator(s[1..], sep);
      assert s == [s[0]] + s[1..];
    }
  }

  /** Splitting cuts at the first separator, then splits the rest: the
      character-by-character definition agrees with the description of
      `str.split` in terms of `str.find`. */
  lemma {:induction false} SplitAtFirstSeparator(s: string, sep: char)
    requires Find(s, sep) != -1
    ensures var i := Find(s, sep);
      Split(s, sep) == [s[..i]] + Split(s[i + 1..], sep)
  {
    var i := Find(s, sep);
    if i > 0 {
      SplitAtFirstSeparator(s[1..], sep);
      assert s[1..][..i - 1] == s[1..i];
      assert s[1..][i..] == s[i + 1..];
      assert [s[0]] + s[1..i] == s[..i];
    } else {
      assert s[1..] == s[i + 1..];
    }
  }

  /** `path.split('/')[-1]`: a piece without `/` (where it sits in the path
      is `LastComponentIsSuffix`). */
  function LastComponent(path: string): (c: string)
    ensures '/' !in c
  {
    var parts := Split(path, '/');
    SplitPiecesLackSeparator(path, '/');
    parts[|parts| - 1]
  }

  /** The last component ends the path, and is either the whole path or
      preceded by a `/`. */
  lemma {:induction false} LastComponentIsSuffix(path: string)
    ensures var c := LastComponent(path);
      |c| <= |path| && c == path[|path| - |c|..] &&
      (|c| == |path| || path[|path| - |c| - 1] == '/') &&
      (|c| == |path| <==> |Split(path, '/')| == 1)
  {
    if path != [] {
      var t := path[1..];
      var rest := Split(t, '/');
      LastComponentIsSuffix(t);
      var c := LastComponent(t);
      if path[0] != '/' && |rest| == 1 {
        assert c == t[0..] == t;
        assert LastComponent(path) == [path[0]] + t == path;
      } else {
        assert LastComponent(path) == c;
        assert |Split(path, '/')| > 1;
        var n := |path| - |c|;
        assert t[|t| - |c|..] == path[n..];
        if |c| < |t| {
          assert path[n - 1] == t[|t| - |c| - 1];
        }
      }
    }
  }

  /** The folder name computed from the input path: the last path component
      up to (not including) its first `.`. It holds no `/` and no `.`, it is
      a prefix of the last component, the whole component when that has no
      `.`, and otherwise stops exactly at the component's first `.`. */
  function OutputFolderName(inputFile: string): (name: string)
    ensures '/' !in name && '.' !in name
    ensures |name| <= |LastComponent(inputFile)| && name == LastComponent(inputFile)[..|name|]
    ensures '.' !in LastComponent(inputFile) ==> name == LastComponent(inputFile)
    ensures '.' in LastComponent(inputFile) ==> LastComponent(inputFile)[|name|] == '.'
  {
    var inputFileName := LastComponent(inputFile);
    var dot := Find(inputFileName, '.');
    SplitPiecesLackSeparator(inputFile, '/');
    SplitWithoutSeparator(inputFileName, '/');
    if dot != -1 then LastComponent(inputFileName)[..dot] else inputFileName
  }
}
