/**
 * The concat list written by `createConcatList` for the `--simple` method:
 * one `file '<resolved path>'` line per clip, in input order, joined by a
 * newline with no trailing newline. ffmpeg's concat demuxer reads it back
 * line by line; the round trip below is what makes the file say exactly
 * which clips to copy, in which order.
 */
module ConcatList {
  import opened Wrappers

  const ListFile := "concat_list.txt"
  const LinePrefix := "file '"

  /** `file '<path>'` */
  function Line(path: string): (line: string)
    ensures |line| == |path| + 7
    ensures line[..6] == LinePrefix && line[6..|line| - 1] == path && line[|line| - 1] == '\''
  {
    LinePrefix + path + "'"
  }

  /** The inverse of Line: the quoted path of a `file '...'` line. */
  function Unquote(line: string): Option<string>
  {
    if |line| >= 7 && line[..6] == LinePrefix && line[|line| - 1] == '\'' then Some(line[6..|line| - 1])
    else None
  }

  lemma UnquoteLine(path: string)
    ensures Unquote(Line(path)) == Some(path)
  {
  }

  /** `lines.join('\n')`: the first line opens the text. */
  function Join(lines: seq<string>): (s: string)
    ensures |lines| > 0 ==> lines[0] <= s
  {
    if |lines| == 0 then ""
    else if |lines| == 1 then lines[0]
    else lines[0] + "\n" + Join(lines[1..])
  }

  /** The last line closes the joined text: no newline follows it. */
  lemma {:induction false} JoinEndsWithLast(lines: seq<string>)
    requires |lines| > 0
    ensures var s, last := Join(lines), lines[|lines| - 1];
            |last| <= |s| && s[|s| - |last|..] == last
    decreases |lines|
  {
    if |lines| > 1 {
      var head, rest, last := lines[0], lines[1..], lines[|lines| - 1];
      JoinEndsWithLast(rest);
      assert rest[|rest| - 1] == last;
      var r := Join(rest);
      var s := head + "\n" + r;
      assert Join(lines) == s;
      assert s[|s| - |last|..] == r[|r| - |last|..];
    }
  }

  /** Splits at every newline; the reader's view of the file. */
  function Split(s: string): (parts: seq<string>)
    ensures |parts| >= 1
    decreases |s|
  {
    if |s| == 0 then [""]
    else if s[0] == '\n' then [""] + Split(s[1..])
    else
      var rest := Split(s[1..]);
      [[s[0]] + rest[0]] + rest[1..]
  }

  predicate NoNewline(s: string)
  {
    forall k :: 0 <= k < |s| ==> s[k] != '\n'
  }

  /** A text without newlines is one line. */
  lemma {:induction false} SplitSingle(x: string)
    requires NoNewline(x)
    ensures Split(x) == [x]
    decreases |x|
  {
    if |x| > 0 {
      SplitSingle(x[1..]);
      assert [x[0]] + x[1..] == x;
    }
  }

  /** Splitting `x \n y` with x free of newlines yields x, then the lines of y. */
  lemma {:induction false} SplitAtFirstNewline(x: string, y: string)
    requires NoNewline(x)
    ensures Split(x + "\n" + y) == [x] + Split(y)
    decreases |x|
  {
    var s := x + "\n" + y;
    if |x| == 0 {
      assert s[1..] == y;
    } else {
      assert s[1..] == x[1..] + "\n" + y;
      SplitAtFirstNewline(x[1..], y);
      assert [x[0]] + x[1..] == x;
    }
  }

  /** Joining newline-free lines and splitting the result gives the lines back. */
  lemma {:induction false} SplitJoin(lines: seq<string>)
    requires |lines| >= 1
    requires forall i :: 0 <= i < |lines| ==> NoNewline(lines[i])
    ensures Split(Join(lines)) == lines
    decreases |lines|
  {
    if |lines| == 1 {
      SplitSingle(lines[0]);
    } else {
      SplitAtFirstNewline(lines[0], Join(lines[1..]));
      SplitJoin(lines[1..]);
      assert [lines[0]] + lines[1..] == lines;
    }
  }

  /** The lines of the list, one per clip, after `path.resolve`. */
  function Lines(resolved: seq<string>): (lines: seq<string>)
    ensures |lines| == |resolved|
    ensures forall i :: 0 <= i < |resolved| ==> lines[i] == Line(resolved[i])
  {
    seq(|resolved|, i requires 0 <= i < |resolved| => Line(resolved[i]))
  }

  /** The file content `createConcatList` writes for the resolved clip paths:
      it opens with the first line's `file '` and, with no trailing newline,
      ends with the last line's closing quote. */
  function Content(resolved: seq<string>): (c: string)
    ensures |resolved| > 0 ==> LinePrefix <= c && c[|c| - 1] == '\''
  {
    var lines := Lines(resolved);
    if |lines| > 0 then
      JoinEndsWithLast(lines);
      Join(lines)
    else Join(lines)
  }

  /** What a line-by-line reader finds in the list: the quoted path of each line. */
  function Entries(content: string): (entries: seq<Option<string>>)
    ensures |entries| == |Split(content)|
  {
    var parts := Split(content);
    seq(|parts|, i requires 0 <= i < |parts| => Unquote(parts[i]))
  }

  /** The list names exactly the clips, one line each, in input order, as long
      as no resolved path contains a newline. */
  lemma ConcatListRoundTrip(resolved: seq<string>)
    requires |resolved| >= 1
    requires forall i :: 0 <= i < |resolved| ==> NoNewline(resolved[i])
    ensures |Entries(Content(resolved))| == |resolved|
    ensures forall i :: 0 <= i < |resolved| ==> Entries(Content(resolved))[i] == Some(resolved[i])
  {
    var lines := Lines(resolved);
    LinesNoNewline(resolved);
    SplitJoin(lines);
    forall i | 0 <= i < |resolved|
      ensures Entries(Content(resolved))[i] == Some(resolved[i])
    {
      UnquoteLine(resolved[i]);
    }
  }

  lemma LinesNoNewline(resolved: seq<string>)
    requires forall i :: 0 <= i < |resolved| ==> NoNewline(resolved[i])
    ensures forall i :: 0 <= i < |resolved| ==> NoNewline(Lines(resolved)[i])
  {
    forall i | 0 <= i < |resolved|
      ensures NoNewline(Lines(resolved)[i])
    {
      assert Lines(resolved)[i] == LinePrefix + resolved[i] + "'";
    }
  }
}
