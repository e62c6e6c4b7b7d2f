/** Text helpers behind the env-file editor and reader: trimming, searching, splitting into lines. */
module EnvText {
  import opened Common

  /** White space and line terminators as `String.prototype.trim` removes them. */
  predicate IsSpace(c: char) {
    || '\t' <= c <= '\r' || c == ' ' || c == '\U{00A0}' || c == '\U{1680}' || '\U{2000}' <= c <= '\U{200A}'
    || c == '\U{2028}' || c == '\U{2029}' || c == '\U{202F}' || c == '\U{205F}' || c == '\U{3000}' || c == '\U{FEFF}'
  }

  function TrimStart(s: string): string {
    if s != "" && IsSpace(s[0]) then TrimStart(s[1..]) else s
  }

  function TrimEnd(s: string): string {
    if s != "" && IsSpace(s[|s| - 1]) then TrimEnd(s[..|s| - 1]) else s
  }

  function Trim(s: string): string { TrimEnd(TrimStart(s)) }

  function IndexOf(s: string, c: char): (i: Option<nat>)
    ensures i.Some? ==> i.value < |s|
  {
    if s == "" then None
    else if s[0] == c then Some(0)
    else match IndexOf(s[1..], c)
      case None => None
      case Some(i) => Some(i + 1)
  }

  /** The first occurrence, and none exactly when there is none. */
  lemma {:induction false} IndexOfIsFirst(s: string, c: char)
    ensures IndexOf(s, c).None? <==> c !in s
    ensures var i := IndexOf(s, c); i.Some? ==> s[i.value] == c && c !in s[..i.value]
  {
    if s != "" && s[0] != c {
      IndexOfIsFirst(s[1..], c);
      assert s == [s[0]] + s[1..];
      var i := IndexOf(s, c);
      if i.Some? { assert s[..i.value] == [s[0]] + s[1..][..i.value - 1]; }
    }
  }

  lemma {:induction false} IndexAfter(front: string, c: char, back: string)
    requires c !in front
    ensures IndexOf(front + [c] + back, c) == Some(|front|)
  {
    var s := front + [c] + back;
    if front != "" {
      assert c !in front[1..] by { assert forall x <- front[1..] :: x in front; }
      IndexAfter(front[1..], c, back);
      assert s[1..] == front[1..] + [c] + back;
    }
  }

  lemma {:induction false} TrimEndIsPrefix(s: string)
    ensures TrimEnd(s) <= s
    ensures TrimEnd(s) != "" ==> !IsSpace(TrimEnd(s)[|TrimEnd(s)| - 1])
  {
    if s != "" && IsSpace(s[|s| - 1]) { TrimEndIsPrefix(s[..|s| - 1]); }
  }

  lemma {:induction false} TrimStartIsSuffix(s: string)
    ensures |TrimStart(s)| <= |s| && TrimStart(s) == s[|s| - |TrimStart(s)|..]
    ensures TrimStart(s) != "" ==> !IsSpace(TrimStart(s)[0])
  {
    if s != "" && IsSpace(s[0]) { TrimStartIsSuffix(s[1..]); }
  }

  /** Trimming stops at the first character that is not space, seen from the end. */
  lemma {:induction false} TrimEndStops(front: string, back: string)
    requires front != "" && !IsSpace(front[|front| - 1])
    ensures TrimEnd(front + back) == front + TrimEnd(back)
    decreases |back|
  {
    if back == "" {
      assert front + back == front;
    } else if IsSpace(back[|back| - 1]) {
      TrimEndStops(front, back[..|back| - 1]);
      assert (front + back)[..|front + back| - 1] == front + back[..|back| - 1];
    }
  }

  /** Trimming both ends does not depend on the order. */
  lemma {:induction false} TrimAfterTrimEnd(s: string)
    ensures Trim(TrimEnd(s)) == Trim(s)
    decreases |s|
  {
    if s != "" && IsSpace(s[0]) {
      TrimAfterTrimEnd(s[1..]);
      if TrimEnd(s[1..]) == "" {
        TrimEndOfBlank(s);
      } else {
        TrimEndKeepsHead(s);
      }
    } else if s != "" {
      TrimEndStops(s[..1], s[1..]);
      assert s == s[..1] + s[1..];
      TrimEndTwice(s);
    }
  }

  lemma {:induction false} TrimEndTwice(s: string)
    ensures TrimEnd(TrimEnd(s)) == TrimEnd(s)
  {
    TrimEndIsPrefix(s);
  }

  lemma {:induction false} TrimEndOfBlank(s: string)
    requires s != "" && IsSpace(s[0]) && TrimEnd(s[1..]) == ""
    ensures TrimEnd(s) == ""
    decreases |s|
  {
    var n := |s| - 1;
    if n > 0 {
      assert s[1..][..n - 1] == s[..n][1..];
      assert s[1..][n - 1] == s[n];
      TrimEndOfBlank(s[..n]);
    }
  }

  lemma {:induction false} TrimEndKeepsHead(s: string)
    requires s != "" && TrimEnd(s[1..]) != ""
    ensures TrimEnd(s) == [s[0]] + TrimEnd(s[1..])
    decreases |s|
  {
    var n := |s| - 1;
    assert s[1..][n - 1] == s[n];
    if IsSpace(s[n]) {
      assert s[1..][..n - 1] == s[..n][1..];
      TrimEndKeepsHead(s[..n]);
    } else {
      assert s == [s[0]] + s[1..];
    }
  }

  // ----- Lines -----

  predicate OneLine(s: string) { '\n' !in s }

  predicate OneLineEach(lines: seq<string>) { forall l <- lines :: OneLine(l) }

  function Split(s: string): (lines: seq<string>)
    ensures lines != []
    decreases |s|
  {
    match IndexOf(s, '\n')
    case None => [s]
    case Some(i) => [s[..i]] + Split(s[i + 1..])
  }

  lemma {:induction false} SplitIsOneLineEach(s: string)
    ensures OneLineEach(Split(s))
    decreases |s|
  {
    IndexOfIsFirst(s, '\n');
    var i := IndexOf(s, '\n');
    if i.Some? { SplitIsOneLineEach(s[i.value + 1..]); }
  }

  function Join(lines: seq<string>): string {
    if lines == [] then "" else if |lines| == 1 then lines[0] else lines[0] + "\n" + Join(lines[1..])
  }

  lemma SplitFirst(line: string, rest: string)
    requires OneLine(line)
    ensures Split(line + "\n" + rest) == [line] + Split(rest)
  {
    var text := line + "\n" + rest;
    IndexAfter(line, '\n', rest);
    assert text == line + ['\n'] + rest;
    assert text[..|line|] == line && text[|line| + 1..] == rest;
  }

  /** Splitting takes apart what joining put together. */
  lemma {:induction false} SplitJoin(lines: seq<string>)
    requires lines != [] && OneLineEach(lines)
    ensures Split(Join(lines)) == lines
  {
    if |lines| > 1 {
      assert forall l <- lines[1..] :: l in lines;
      SplitJoin(lines[1..]);
      assert lines[0] in lines;
      SplitFirst(lines[0], Join(lines[1..]));
      assert lines == [lines[0]] + lines[1..];
    } else {
      assert lines[0] in lines;
      IndexOfIsFirst(lines[0], '\n');
    }
  }

  lemma {:induction false} JoinSplit(s: string)
    ensures Join(Split(s)) == s
    decreases |s|
  {
    var i := IndexOf(s, '\n');
    if i.Some? {
      IndexOfIsFirst(s, '\n');
      JoinSplit(s[i.value + 1..]);
      var tail := Split(s[i.value + 1..]);
      assert ([s[..i.value]] + tail)[1..] == tail;
      assert s == s[..i.value] + "\n" + s[i.value + 1..];
    }
  }

  lemma {:induction false} JoinLast(lines: seq<string>, last: string)
    requires lines != []
    ensures Join(lines + [last]) == Join(lines) + "\n" + last
  {
    if |lines| == 1 {
      assert (lines + [last])[1..] == [last];
    } else {
      JoinLast(lines[1..], last);
      assert (lines + [last])[1..] == lines[1..] + [last];
    }
  }

  function StripNewlines(s: string): string {
    if s != "" && s[|s| - 1] == '\n' then StripNewlines(s[..|s| - 1]) else s
  }

  /** Without the empty lines at the end. */
  function DropBlanks(lines: seq<string>): (kept: seq<string>)
    ensures kept <= lines
  {
    if lines != [] && lines[|lines| - 1] == "" then DropBlanks(lines[..|lines| - 1]) else lines
  }

  lemma {:induction false} StripIsDropBlanks(lines: seq<string>)
    requires OneLineEach(lines)
    ensures StripNewlines(Join(lines)) == Join(DropBlanks(lines))
    decreases |lines|
  {
    if lines == [] {
    } else {
      var n := |lines| - 1;
      var last := lines[n];
      assert lines == lines[..n] + [last] && last in lines;
      if n > 0 { JoinLast(lines[..n], last); }
      if last == "" {
        StripIsDropBlanks(lines[..n]);
        if n > 0 { assert Join(lines)[..|Join(lines)| - 1] == Join(lines[..n]); }
      } else {
        var text := Join(lines);
        assert text[|text| - 1] == last[|last| - 1];
        assert last[|last| - 1] in last;
      }
    }
  }

  lemma {:induction false} DropBlanksTwice(lines: seq<string>)
    ensures DropBlanks(DropBlanks(lines)) == DropBlanks(lines)
    ensures DropBlanks(DropBlanks(lines) + [""]) == DropBlanks(lines)
  {
    if lines != [] && lines[|lines| - 1] == "" {
      DropBlanksTwice(lines[..|lines| - 1]);
    }
    var kept := DropBlanks(lines);
    assert (kept + [""])[..|kept|] == kept;
  }
}
