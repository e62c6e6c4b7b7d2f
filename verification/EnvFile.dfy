/** Editing key=value lines of an env file, and reading them back into an environment. */
module EnvFile {
  import opened Common
  import opened EnvText

  type Env = map<string, string>

  // ----- Reading -----

  /** Key of a line as the editor and the reader both find it; comments and lines without a key have none. */
  function KeyOf(rawLine: string): Option<string> {
    var line := Trim(rawLine);
    if line == "" || line[0] == '#' then None
    else
      var eq := IndexOf(line, '=');
      if eq.None? || eq.value == 0 then None else Some(Trim(line[..eq.value]))
  }

  /** A quoted value ends at its closing quote; an unquoted one at the first '#'. */
  function Unquoted(val: string): string {
    if val != "" && (val[0] == '"' || val[0] == '\'') then
      match IndexOf(val[1..], val[0])
      case Some(e) => val[1..e + 1]
      case None => val
    else
      match IndexOf(val, '#')
      case Some(h) => TrimEnd(val[..h])
      case None => val
  }

  function ParseEnvLine(rawLine: string): Option<(string, string)> {
    var line := Trim(rawLine);
    match KeyOf(rawLine)
    case None => None
    case Some(key) => Some((key, Unquoted(Trim(line[IndexOf(line, '=').value + 1..]))))
  }

  /** What follows the closing quote is dropped. */
  lemma QuotedValueReads(q: char, v: string, rest: string)
    requires (q == '"' || q == '\'') && q !in v
    ensures Unquoted([q] + v + [q] + rest) == v
    ensures Unquoted([q] + v) == [q] + v
  {
    var s := [q] + v + [q] + rest;
    assert s[1..] == v + [q] + rest;
    IndexAfter(v, q, rest);
    assert s[1..|v| + 1] == v;
    assert ([q] + v)[1..] == v;
    IndexOfIsFirst(v, q);
  }

  /** Outside quotes a comment is dropped, together with the space before it. */
  lemma CommentedValueReads(v: string, rest: string)
    requires '#' !in v && (v == "" || (v[0] != '"' && v[0] != '\''))
    ensures Unquoted(v + "#" + rest) == TrimEnd(v)
    ensures Unquoted(v) == v
  {
    var s := v + "#" + rest;
    assert s == v + ['#'] + rest;
    IndexAfter(v, '#', rest);
    assert s[..|v|] == v;
    IndexOfIsFirst(v, '#');
  }

  predicate MaySet(env: Env, key: string, overrideEmpty: bool) {
    key !in env || (overrideEmpty && env[key] == "")
  }

  function ApplyLine(rawLine: string, env: Env, overrideEmpty: bool): Env {
    match ParseEnvLine(rawLine)
    case None => env
    case Some((key, val)) => if MaySet(env, key, overrideEmpty) then env[key := val] else env
  }

  function ApplyLines(lines: seq<string>, env: Env, overrideEmpty: bool): Env {
    if lines == [] then env
    else ApplyLine(lines[|lines| - 1], ApplyLines(lines[..|lines| - 1], env, overrideEmpty), overrideEmpty)
  }

  lemma AppliedSoFar(lines: seq<string>, i: nat, env: Env, overrideEmpty: bool)
    requires i < |lines|
    ensures ApplyLines(lines[..i + 1], env, overrideEmpty)
      == ApplyLine(lines[i], ApplyLines(lines[..i], env, overrideEmpty), overrideEmpty)
  {
    assert lines[..i + 1][..i] == lines[..i];
  }

  method ApplyEnvFile(file: Option<string>, env: Env, overrideEmpty: bool) returns (r: Env)
    ensures r == if file.None? then env else ApplyLines(Split(file.value), env, overrideEmpty)
  {
    r := env;
    if file.None? { return; }
    var lines := Split(file.value);
    for i := 0 to |lines|
      invariant r == ApplyLines(lines[..i], env, overrideEmpty)
    {
      AppliedSoFar(lines, i, env, overrideEmpty);
      var parsed := ParseEnvLine(lines[i]);
      if parsed.None? { continue; }
      var (key, val) := parsed.value;
      if key !in r || (overrideEmpty && r[key] == "") {
        r := r[key := val];
      }
    }
    assert lines[..|lines|] == lines;
  }

  /** The first line with this key. */
  function FirstLine(lines: seq<string>, key: string): Option<string> {
    if lines == [] then None
    else
      var n := |lines| - 1;
      var before := FirstLine(lines[..n], key);
      if before.Some? then before else if KeyOf(lines[n]) == Some(key) then Some(lines[n]) else None
  }

  function Lookup(lines: seq<string>, key: string): Option<string> {
    match FirstLine(lines, key)
    case None => None
    case Some(line) => if ParseEnvLine(line).Some? then Some(ParseEnvLine(line).value.1) else None
  }

  function Get(env: Env, key: string): Option<string> { if key in env then Some(env[key]) else None }

  /** Reading a file into an environment: what was set stays, otherwise the first line with the key wins. */
  lemma {:induction false} FirstLineWins(lines: seq<string>, env: Env, key: string)
    ensures Get(ApplyLines(lines, env, false), key) == if key in env then Some(env[key]) else Lookup(lines, key)
  {
    if lines == [] {
    } else {
      FirstLineWins(lines[..|lines| - 1], env, key);
      LookupIsKeyed(lines[..|lines| - 1], key);
    }
  }

  lemma {:induction false} LookupIsKeyed(lines: seq<string>, key: string)
    ensures FirstLine(lines, key).Some? ==>
      KeyOf(FirstLine(lines, key).value) == Some(key) && FirstLine(lines, key).value in lines
  {
    if lines != [] { LookupIsKeyed(lines[..|lines| - 1], key); }
  }

  /** First non-empty value of the key. */
  function FirstFilled(lines: seq<string>, key: string): Option<string> {
    if lines == [] then None
    else
      var n := |lines| - 1;
      var before := FirstFilled(lines[..n], key);
      var parsed := ParseEnvLine(lines[n]);
      if before.Some? then before
      else if parsed.Some? && parsed.value.0 == key && parsed.value.1 != "" then Some(parsed.value.1)
      else None
  }

  /** With empty values overridden, a set non-empty value stays, and otherwise the first non-empty line wins. */
  lemma {:induction false} FirstFilledLineWins(lines: seq<string>, env: Env, key: string)
    ensures Get(ApplyLines(lines, env, true), key) ==
      if key in env && env[key] != "" then Some(env[key])
      else if FirstFilled(lines, key).Some? then FirstFilled(lines, key)
      else if key in env || Lookup(lines, key).Some? then Some("") else None
    ensures FirstFilled(lines, key) != Some("")
  {
    if lines == [] {
    } else {
      FirstFilledLineWins(lines[..|lines| - 1], env, key);
      LookupIsKeyed(lines[..|lines| - 1], key);
    }
  }

  // ----- Editing -----

  /** New values by key; `keys` lists the keys once each, in the order of the update object. */
  datatype Updates = Updates(keys: seq<string>, values: Env)

  ghost predicate WellFormed(u: Updates) {
    Distinct(u.keys) && forall k :: k in u.keys <==> k in u.values
  }

  function Assignment(key: string, value: string): string { key + "=" + value }

  predicate Has(lines: seq<string>, key: string) { FirstLine(lines, key).Some? }

  /** Every first line of an updated key becomes its assignment; all other lines stay as they are. */
  function Rewrite(lines: seq<string>, values: Env): seq<string> {
    if lines == [] then []
    else
      var n := |lines| - 1;
      Rewrite(lines[..n], values) + [RewriteLine(lines[..n], lines[n], values)]
  }

  function RewriteLine(before: seq<string>, line: string, values: Env): string {
    match KeyOf(line)
    case None => line
    case Some(key) => if key in values && !Has(before, key) then Assignment(key, values[key]) else line
  }

  /** Assignments for the keys that no line has. */
  function Missing(lines: seq<string>, keys: seq<string>, values: Env): seq<string>
    requires forall k <- keys :: k in values
  {
    if keys == [] then []
    else
      var n := |keys| - 1;
      var before := Missing(lines, keys[..n], values);
      if Has(lines, keys[n]) then before else before + [Assignment(keys[n], values[keys[n]])]
  }

  function Edited(lines: seq<string>, u: Updates): seq<string>
    requires forall k <- u.keys :: k in u.values
  {
    Rewrite(lines, u.values) + Missing(lines, u.keys, u.values)
  }

  function Finish(lines: seq<string>): string { StripNewlines(Join(lines)) + "\n" }

  function LinesOf(file: Option<string>): seq<string> { if file.Some? then Split(file.value) else [] }

  lemma LinesAreOneLineEach(file: Option<string>)
    ensures OneLineEach(LinesOf(file))
  {
    if file.Some? { SplitIsOneLineEach(file.value); }
  }

  lemma RewrittenSoFar(lines: seq<string>, i: nat, values: Env)
    requires i < |lines|
    ensures Rewrite(lines[..i + 1], values) == Rewrite(lines[..i], values) + [RewriteLine(lines[..i], lines[i], values)]
  {
    assert lines[..i + 1][..i] == lines[..i];
  }

  lemma FoundSoFar(lines: seq<string>, i: nat, key: string)
    requires i < |lines|
    ensures Has(lines[..i + 1], key) <==> Has(lines[..i], key) || KeyOf(lines[i]) == Some(key)
  {
    assert lines[..i + 1][..i] == lines[..i];
  }

  lemma AllFoundSoFar(lines: seq<string>, i: nat)
    requires i < |lines|
    ensures forall k :: Has(lines[..i + 1], k) <==> Has(lines[..i], k) || KeyOf(lines[i]) == Some(k)
  {
    forall k ensures Has(lines[..i + 1], k) <==> Has(lines[..i], k) || KeyOf(lines[i]) == Some(k) {
      FoundSoFar(lines, i, k);
    }
  }

  method UpsertEnvLines(file: Option<string>, u: Updates) returns (text: string)
    requires WellFormed(u)
    ensures text == Finish(Edited(LinesOf(file), u))
  {
    var lines := LinesOf(file);
    var keys := set k | k in u.keys;
    var out := [];
    for i := 0 to |lines|
      invariant out == Rewrite(lines[..i], u.values)
      invariant forall k :: k in keys <==> k in u.keys && !Has(lines[..i], k)
    {
      var line := lines[i];
      RewrittenSoFar(lines, i, u.values);
      AllFoundSoFar(lines, i);
      var trimmed := Trim(line);
      if trimmed == "" || trimmed[0] == '#' {
        out := out + [line];
        continue;
      }
      var eq := IndexOf(trimmed, '=');
      if eq.None? || eq.value == 0 {
        out := out + [line];
        continue;
      }
      var key := Trim(trimmed[..eq.value]);
      if key in keys {
        out := out + [key + "=" + u.values[key]];
        keys := keys - {key};
      } else {
        out := out + [line];
      }
    }
    assert lines[..|lines|] == lines;
    var rewritten := out;
    for i := 0 to |u.keys|
      invariant out == rewritten + Missing(lines, u.keys[..i], u.values)
    {
      var key := u.keys[i];
      assert u.keys[..i + 1][..i] == u.keys[..i];
      if key in keys {
        out := out + [key + "=" + u.values[key]];
      }
    }
    assert u.keys[..|u.keys|] == u.keys;
    text := StripNewlines(Join(out)) + "\n";
  }

  // ----- One assignment read back -----

  /** A key a line can carry: no outer space, no '=', no line break, not a comment. */
  predicate ValidKey(key: string) {
    key != "" && Trim(key) == key && '=' !in key && OneLine(key) && key[0] != '#'
  }

  /** What the reader makes of a value written without quoting. */
  function ReadBack(value: string): string { Unquoted(Trim(value)) }

  lemma TrimmedEnds(key: string)
    requires key != "" && Trim(key) == key
    ensures !IsSpace(key[0]) && !IsSpace(key[|key| - 1])
  {
    TrimStartIsSuffix(key);
    TrimEndIsPrefix(TrimStart(key));
  }

  lemma AssignmentReadsBack(key: string, value: string)
    requires ValidKey(key)
    ensures KeyOf(Assignment(key, value)) == Some(key)
    ensures ParseEnvLine(Assignment(key, value)) == Some((key, ReadBack(value)))
  {
    TrimmedEnds(key);
    var line := Assignment(key, value);
    assert TrimStart(line) == line;
    var front := key + "=";
    assert !IsSpace(front[|front| - 1]);
    TrimEndStops(front, value);
    var trimmed := Trim(line);
    assert trimmed == front + TrimEnd(value);
    IndexAfter(key, '=', TrimEnd(value));
    assert trimmed == key + ['='] + TrimEnd(value);
    assert trimmed[..|key|] == key && trimmed[|key| + 1..] == TrimEnd(value);
    TrimAfterTrimEnd(value);
  }

  /**
   * A value without outer space is read back as written exactly when nothing in it is taken for a quoted end or a
   * comment.
   */
  predicate Plain(value: string) {
    && Trim(value) == value
    && (value == "" || if value[0] == '"' || value[0] == '\'' then value[0] !in value[1..] else '#' !in value)
  }

  lemma ReadsBackIffPlain(value: string)
    ensures ReadBack(value) == value <==> Plain(value)
  {
    TrimShortens(value);
    var t := Trim(value);
    IndexOfIsFirst(value, '#');
    if value != "" { IndexOfIsFirst(value[1..], value[0]); }
    if t != value {
      UnquotedShortens(t);
    } else if value != "" && !(value[0] == '"' || value[0] == '\'') && '#' in value {
      TrimEndIsPrefix(value[..IndexOf(value, '#').value]);
    }
  }

  lemma TrimShortens(s: string)
    ensures Trim(s) != s ==> |Trim(s)| < |s|
  {
    TrimStartIsSuffix(s);
    TrimEndIsPrefix(TrimStart(s));
  }

  lemma UnquotedShortens(s: string)
    ensures |Unquoted(s)| <= |s|
  {
    var h := IndexOf(s, '#');
    if h.Some? { TrimEndIsPrefix(s[..h.value]); }
  }

  // ----- What an edit keeps and changes -----

  /** No key and no value breaks a line. */
  ghost predicate OneLineUpdates(u: Updates) {
    WellFormed(u) && forall k <- u.keys :: OneLine(k) && OneLine(u.values[k])
  }

  ghost predicate ValidUpdates(u: Updates) {
    OneLineUpdates(u) && forall k <- u.keys :: ValidKey(k)
  }

  lemma {:induction false} RewriteKeepsLength(lines: seq<string>, values: Env)
    ensures |Rewrite(lines, values)| == |lines|
  {
    if lines != [] { RewriteKeepsLength(lines[..|lines| - 1], values); }
  }

  /** Line by line: the first line of an updated key becomes its assignment, and no other line moves or changes. */
  lemma {:induction false} RewriteAt(lines: seq<string>, values: Env, i: nat)
    requires i < |lines|
    ensures |Rewrite(lines, values)| == |lines|
      && Rewrite(lines, values)[i] == RewriteLine(lines[..i], lines[i], values)
    decreases |lines|
  {
    var n := |lines| - 1;
    RewriteKeepsLength(lines[..n], values);
    if i < n {
      RewriteAt(lines[..n], values, i);
      assert lines[..n][..i] == lines[..i];
    }
  }

  lemma {:induction false} FirstLineOfAppend(a: seq<string>, b: seq<string>, key: string)
    ensures FirstLine(a + b, key) == if Has(a, key) then FirstLine(a, key) else FirstLine(b, key)
    decreases |b|
  {
    if b == [] {
      assert a + b == a;
    } else {
      var n := |b| - 1;
      FirstLineOfAppend(a, b[..n], key);
      assert (a + b)[..|a + b| - 1] == a + b[..n];
    }
  }

  lemma {:induction false} FirstLineOfRewrite(lines: seq<string>, u: Updates, key: string)
    requires ValidUpdates(u)
    ensures FirstLine(Rewrite(lines, u.values), key) ==
      if key in u.keys && Has(lines, key) then Some(Assignment(key, u.values[key])) else FirstLine(lines, key)
  {
    if lines == [] {
    } else {
      var n := |lines| - 1;
      FirstLineOfRewrite(lines[..n], u, key);
      RewriteKeepsLength(lines[..n], u.values);
      assert Rewrite(lines, u.values)[..n] == Rewrite(lines[..n], u.values);
      RewriteLineKeepsKey(lines[..n], lines[n], u);
    }
  }

  lemma RewriteLineKeepsKey(before: seq<string>, line: string, u: Updates)
    requires ValidUpdates(u)
    ensures KeyOf(RewriteLine(before, line, u.values)) == KeyOf(line)
  {
    var k := KeyOf(line);
    if k.Some? && k.value in u.values {
      assert k.value in u.keys;
      AssignmentReadsBack(k.value, u.values[k.value]);
    }
  }

  lemma {:induction false} FirstLineOfMissing(lines: seq<string>, keys: seq<string>, u: Updates, key: string)
    requires ValidUpdates(u) && forall k <- keys :: k in u.keys
    ensures FirstLine(Missing(lines, keys, u.values), key) ==
      if key in keys && !Has(lines, key) then Some(Assignment(key, u.values[key])) else None
  {
    if keys == [] {
    } else {
      var n := |keys| - 1;
      FirstLineOfMissing(lines, keys[..n], u, key);
      assert keys == keys[..n] + [keys[n]];
      AssignmentReadsBack(keys[n], u.values[keys[n]]);
      FirstLineOfAppend(Missing(lines, keys[..n], u.values), [Assignment(keys[n], u.values[keys[n]])], key);
      assert [Assignment(keys[n], u.values[keys[n]])][..0] == [];
    }
  }

  /** After an edit the first line of an updated key is its assignment, of any other key what it was. */
  lemma FirstLineOfEdited(lines: seq<string>, u: Updates, key: string)
    requires ValidUpdates(u)
    ensures FirstLine(Edited(lines, u), key) ==
      if key in u.keys then Some(Assignment(key, u.values[key])) else FirstLine(lines, key)
  {
    FirstLineOfRewrite(lines, u, key);
    FirstLineOfMissing(lines, u.keys, u, key);
    FirstLineOfAppend(Rewrite(lines, u.values), Missing(lines, u.keys, u.values), key);
  }

  lemma {:induction false} EditedIsOneLineEach(lines: seq<string>, keys: seq<string>, u: Updates)
    requires OneLineUpdates(u) && OneLineEach(lines) && forall k <- keys :: k in u.keys
    ensures OneLineEach(Rewrite(lines, u.values)) && OneLineEach(Missing(lines, keys, u.values))
    decreases |lines|, |keys|
  {
    if keys != [] {
      var n := |keys| - 1;
      EditedIsOneLineEach(lines, keys[..n], u);
      assert OneLine(Assignment(keys[n], u.values[keys[n]]));
    } else if lines != [] {
      var n := |lines| - 1;
      EditedIsOneLineEach(lines[..n], [], u);
      assert lines[n] in lines;
      var k := KeyOf(lines[n]);
      assert k.Some? && k.value in u.values ==> OneLine(Assignment(k.value, u.values[k.value]));
    }
  }

  /** The lines of a finished text: the same without trailing empty ones, and the end of the last line. */
  function Tidy(lines: seq<string>): seq<string> {
    if DropBlanks(lines) == [] then ["", ""] else DropBlanks(lines) + [""]
  }

  lemma FinishedLines(lines: seq<string>)
    requires OneLineEach(lines)
    ensures Split(Finish(lines)) == Tidy(lines)
  {
    StripIsDropBlanks(lines);
    var kept := DropBlanks(lines);
    assert forall l <- kept :: l in lines;
    if kept == [] {
      assert Finish(lines) == Join(["", ""]);
      SplitJoin(["", ""]);
    } else {
      JoinLast(kept, "");
      assert Join(kept) + "\n" + "" == Join(kept) + "\n";
      SplitJoin(kept + [""]);
    }
  }

  lemma {:induction false} FirstLineOfDropped(lines: seq<string>, key: string)
    ensures FirstLine(DropBlanks(lines), key) == FirstLine(lines, key)
  {
    if lines != [] && lines[|lines| - 1] == "" {
      FirstLineOfDropped(lines[..|lines| - 1], key);
    }
  }

  lemma FirstLineOfTidy(lines: seq<string>, key: string)
    ensures FirstLine(Tidy(lines), key) == FirstLine(lines, key)
  {
    FirstLineOfDropped(lines, key);
    var kept := DropBlanks(lines);
    BlankHasNoKey(kept, key);
    BlankHasNoKey([""], key);
    BlankHasNoKey([], key);
    assert [""] + [""] == ["", ""] && [] + [""] == [""];
  }

  lemma BlankHasNoKey(lines: seq<string>, key: string)
    ensures FirstLine(lines + [""], key) == FirstLine(lines, key)
  {
    assert (lines + [""])[..|lines|] == lines;
  }

  /**
   * Reading an edited file: each updated key has its new value as the reader takes it, and every other key the value
   * it had, in any environment that does not set the key already.
   */
  lemma EditedFileReadsBack(file: Option<string>, u: Updates, env: Env, key: string)
    requires ValidUpdates(u) && key !in env
    ensures var after := ApplyLines(Split(Finish(Edited(LinesOf(file), u))), env, false);
      Get(after, key) ==
        if key in u.keys then Some(ReadBack(u.values[key]))
        else Get(ApplyLines(LinesOf(file), env, false), key)
  {
    var lines := LinesOf(file);
    var edited := Edited(lines, u);
    LinesAreOneLineEach(file);
    assert OneLineEach(edited) by { EditedIsOneLineEach(lines, u.keys, u); }
    FinishedLines(edited);
    FirstLineOfTidy(edited, key);
    FirstLineOfEdited(lines, u, key);
    FirstLineWins(Tidy(edited), env, key);
    FirstLineWins(lines, env, key);
    if key in u.keys { AssignmentReadsBack(key, u.values[key]); }
  }

  /** The new value itself comes back exactly when it is plain. */
  lemma NewValueComesBackIff(file: Option<string>, u: Updates, env: Env, key: string)
    requires ValidUpdates(u) && key !in env && key in u.keys
    ensures Get(ApplyLines(Split(Finish(Edited(LinesOf(file), u))), env, false), key) == Some(u.values[key])
      <==> Plain(u.values[key])
  {
    EditedFileReadsBack(file, u, env, key);
    ReadsBackIffPlain(u.values[key]);
  }

  /** Every updated key that occurs at all occurs first in its assignment. */
  ghost predicate Settled(lines: seq<string>, u: Updates) {
    forall k <- u.values :: Has(lines, k) ==> FirstLine(lines, k) == Some(Assignment(k, u.values[k]))
  }

  lemma {:induction false} RewriteOfSettled(lines: seq<string>, u: Updates)
    requires Settled(lines, u)
    ensures Rewrite(lines, u.values) == lines
  {
    if lines == [] {
    } else {
      var n := |lines| - 1;
      assert Settled(lines[..n], u) by {
        forall k <- u.values | Has(lines[..n], k) ensures FirstLine(lines[..n], k) == Some(Assignment(k, u.values[k])) {
          assert FirstLine(lines, k) == FirstLine(lines[..n], k);
        }
      }
      RewriteOfSettled(lines[..n], u);
      var k := KeyOf(lines[n]);
      if k.Some? && k.value in u.values && !Has(lines[..n], k.value) {
        assert FirstLine(lines, k.value) == Some(lines[n]);
      }
    }
  }

  lemma {:induction false} NothingMissing(lines: seq<string>, keys: seq<string>, values: Env)
    requires forall k <- keys :: k in values && Has(lines, k)
    ensures Missing(lines, keys, values) == []
  {
    if keys != [] { NothingMissing(lines, keys[..|keys| - 1], values); }
  }

  lemma EditedIsSettled(lines: seq<string>, u: Updates)
    requires ValidUpdates(u)
    ensures var tidy := Tidy(Edited(lines, u));
      Settled(tidy, u) && forall k <- u.keys :: Has(tidy, k)
  {
    var edited := Edited(lines, u);
    forall k <- u.keys ensures FirstLine(Tidy(edited), k) == Some(Assignment(k, u.values[k])) {
      FirstLineOfTidy(edited, k);
      FirstLineOfEdited(lines, u, k);
    }
  }

  /** Finishing tidy lines again gives the same text. */
  lemma FinishTwice(lines: seq<string>)
    requires OneLineEach(lines)
    ensures Finish(Tidy(lines)) == Finish(lines)
  {
    var kept := DropBlanks(lines);
    assert OneLineEach(kept);
    StripIsDropBlanks(lines);
    StripIsDropBlanks(Tidy(lines));
    DropBlanksTwice(lines);
    OnlyBlanks();
  }

  lemma OnlyBlanks()
    ensures DropBlanks(["", ""]) == []
  {
    assert ["", ""][..1] == [""] && [""][..0] == [];
  }

  /** Editing an edited file with the same updates changes nothing. */
  lemma EditingIsIdempotent(file: Option<string>, u: Updates)
    requires ValidUpdates(u)
    ensures var once := Finish(Edited(LinesOf(file), u));
      Finish(Edited(LinesOf(Some(once)), u)) == once
  {
    var edited := Edited(LinesOf(file), u);
    LinesAreOneLineEach(file);
    EditedIsOneLineEach(LinesOf(file), u.keys, u);
    FinishedLines(edited);
    var lines := Tidy(edited);
    EditedIsSettled(LinesOf(file), u);
    RewriteOfSettled(lines, u);
    NothingMissing(lines, u.keys, u.values);
    assert lines + [] == lines;
    FinishTwice(edited);
  }

  /** Only valid keys are ever found on a line. */
  lemma FoundKeyIsValid(line: string)
    requires OneLine(line) && KeyOf(line).Some?
    ensures ValidKey(KeyOf(line).value)
  {
    TrimStartIsSuffix(line);
    TrimEndIsPrefix(TrimStart(line));
    var trimmed := Trim(line);
    assert OneLine(TrimStart(line)) && OneLine(trimmed);
    IndexOfIsFirst(trimmed, '=');
    var front := trimmed[..IndexOf(trimmed, '=').value];
    assert !IsSpace(front[0]);
    assert front == front[..1] + front[1..];
    TrimEndStops(front[..1], front[1..]);
    TrimEndIsPrefix(front);
    TrimEndTwice(front);
  }

  lemma {:induction false} InvalidKeyIsMissing(lines: seq<string>, keys: seq<string>, values: Env, key: string)
    requires OneLineEach(lines) && (forall k <- keys :: k in values) && key in keys && !ValidKey(key)
    ensures var m := Missing(lines, keys, values);
      m != [] && m[|m| - 1] != ""
  {
    var n := |keys| - 1;
    LookupIsKeyed(lines, key);
    if Has(lines, key) { FoundKeyIsValid(FirstLine(lines, key).value); }
    if keys[n] != key {
      assert keys == keys[..n] + [keys[n]];
      InvalidKeyIsMissing(lines, keys[..n], values, key);
    }
  }

  /** A key no line can carry is appended again by every edit. */
  lemma InvalidKeyGrowsTheFile(file: Option<string>, u: Updates, key: string)
    requires OneLineUpdates(u) && key in u.keys && !ValidKey(key)
    ensures var lines := LinesOf(file);
      |Split(Finish(Edited(lines, u)))| > |lines|
  {
    var lines := LinesOf(file);
    LinesAreOneLineEach(file);
    EditedIsOneLineEach(lines, u.keys, u);
    InvalidKeyIsMissing(lines, u.keys, u.values, key);
    RewriteKeepsLength(lines, u.values);
    FinishedAppend(Rewrite(lines, u.values), Missing(lines, u.keys, u.values));
  }

  lemma FinishedAppend(a: seq<string>, b: seq<string>)
    requires OneLineEach(a) && OneLineEach(b) && b != [] && b[|b| - 1] != ""
    ensures |Split(Finish(a + b))| > |a|
  {
    assert (a + b)[|a + b| - 1] == b[|b| - 1];
    assert DropBlanks(a + b) == a + b;
    FinishedLines(a + b);
  }

  /** With single-line keys and values, editing twice is editing once exactly when a line can carry every key. */
  lemma IdempotentIffKeysValid(file: Option<string>, u: Updates)
    requires OneLineUpdates(u)
    ensures var once := Finish(Edited(LinesOf(file), u));
      Finish(Edited(LinesOf(Some(once)), u)) == once <==> forall k <- u.keys :: ValidKey(k)
  {
    if ValidUpdates(u) {
      EditingIsIdempotent(file, u);
    } else {
      var key :| key in u.keys && !ValidKey(key);
      InvalidKeyGrowsTheFile(Some(Finish(Edited(LinesOf(file), u))), u, key);
    }
  }

  /**
   * Lines that an edit does not target keep their text and their order: the lines of the new file are, up to empty
   * lines at the end, the old ones with only first lines of updated keys replaced, then the new assignments.
   */
  lemma UntargetedLinesStay(file: Option<string>, u: Updates, i: nat)
    requires ValidUpdates(u) && i < |LinesOf(file)|
    ensures var lines := LinesOf(file);
      var after := Split(Finish(Edited(lines, u)));
      && DropBlanks(after) == DropBlanks(Rewrite(lines, u.values) + Missing(lines, u.keys, u.values))
      && |Rewrite(lines, u.values)| == |lines|
      && (KeyOf(lines[i]).None? || KeyOf(lines[i]).value !in u.keys || Has(lines[..i], KeyOf(lines[i]).value) ==>
            Rewrite(lines, u.values)[i] == lines[i])
  {
    var lines := LinesOf(file);
    var edited := Edited(lines, u);
    LinesAreOneLineEach(file);
    EditedIsOneLineEach(lines, u.keys, u);
    FinishedLines(edited);
    DropBlanksTwice(edited);
    RewriteAt(lines, u.values, i);
    OnlyBlanks();
  }
}
