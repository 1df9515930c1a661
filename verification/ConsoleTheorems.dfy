/** The log can be read back from its markup, and log, history and chips are what they are meant to be. */
module ConsoleTheorems {
  import opened Wrappers
  import opened Sequences
  import opened Json
  import opened ConsoleState

  // ---------------------------------------------------------------- reading the markup back

  /** A colored passage as read: what was read, and the text after it. */
  datatype Read<T> = Read(value: T, rest: string)

  // The text up to the first space.
  function ReadColor(text: string): Option<Read<string>>
    decreases |text|
  {
    if text == "" then None
    else if text[0] == ' ' then Some(Read("", text[1..]))
    else
      var r := ReadColor(text[1..]);
      if r.None? then None else Some(Read([text[0]] + r.value.value, r.value.rest))
  }

  // The text up to the first '#' that is not doubled, with doubled ones halved.
  function ReadBody(text: string): Option<Read<string>>
    decreases |text|
  {
    if text == "" then None
    else if text[0] == '#' && (|text| == 1 || text[1] != '#') then Some(Read("", text[1..]))
    else
      var skip := if text[0] == '#' then 2 else 1;
      var r := ReadBody(text[skip..]);
      if r.None? then None else Some(Read([text[0]] + r.value.value, r.value.rest))
  }

  lemma {:induction false} ReadBodyShrinks(text: string)
    ensures ReadBody(text).Some? ==> |ReadBody(text).value.rest| < |text|
    decreases |text|
  {
    if text != "" && !(text[0] == '#' && (|text| == 1 || text[1] != '#')) {
      ReadBodyShrinks(text[if text[0] == '#' then 2 else 1..]);
    }
  }

  lemma {:induction false} ReadColorShrinks(text: string)
    ensures ReadColor(text).Some? ==> |ReadColor(text).value.rest| < |text|
    decreases |text|
  {
    if text != "" && text[0] != ' ' {
      ReadColorShrinks(text[1..]);
    }
  }

  /** The (color, line) pairs of a text in which a lone '#' opens and closes a passage and "##" is a '#'. */
  function Decode(text: string): Option<seq<(string, string)>>
    decreases |text|
  {
    if text == "" then Some([])
    else if text[0] != '#' then None
    else
      var color := ReadColor(text[1..]);
      if color.None? then None else
      var body := ReadBody(color.value.rest);
      ReadColorShrinks(text[1..]);
      ReadBodyShrinks(color.value.rest);
      if body.None? || body.value.rest == "" || body.value.rest[0] != '\n' then None else
      var more := Decode(body.value.rest[1..]);
      if more.None? then None else Some([(color.value.value, body.value.value)] + more.value)
  }

  function Colored(lines: seq<string>): seq<(string, string)> {
    if lines == [] then [] else [(ColorOf(lines[0]), lines[0])] + Colored(lines[1..])
  }

  lemma ReadDoubled(tail: string)
    requires ReadBody(tail).Some?
    ensures ReadBody("##" + tail) == Some(Read("#" + ReadBody(tail).value.value, ReadBody(tail).value.rest))
  {
    assert ("##" + tail)[2..] == tail;
  }

  lemma ReadPlain(c: char, tail: string)
    requires c != '#' && ReadBody(tail).Some?
    ensures ReadBody([c] + tail) == Some(Read([c] + ReadBody(tail).value.value, ReadBody(tail).value.rest))
  {
    assert ([c] + tail)[1..] == tail;
  }

  lemma ReadEnd(rest: string)
    requires rest == "" || rest[0] != '#'
    ensures ReadBody("#" + rest) == Some(Read("", rest))
  {
    assert ("#" + rest)[1..] == rest;
  }

  lemma {:induction false} ReadEscaped(line: string, rest: string)
    requires rest == "" || rest[0] != '#'
    ensures ReadBody(Escape(line) + ("#" + rest)) == Some(Read(line, rest))
  {
    if line == "" {
      ReadEnd(rest);
      assert Escape(line) + ("#" + rest) == "#" + rest;
    } else {
      var more := Escape(line[1..]);
      ReadEscaped(line[1..], rest);
      if line[0] == '#' {
        ReadDoubled(more + ("#" + rest));
        Regroup("##", more, "#" + rest);
      } else {
        ReadPlain(line[0], more + ("#" + rest));
        Regroup([line[0]], more, "#" + rest);
      }
      assert line == [line[0]] + line[1..];
    }
  }

  lemma {:induction false} ReadColorBack(color: string, rest: string)
    requires ' ' !in color
    ensures ReadColor(color + " " + rest) == Some(Read(color, rest))
  {
    var text := color + " " + rest;
    if color == "" {
      assert text == " " + rest;
      assert text[1..] == rest;
    } else {
      ReadColorBack(color[1..], rest);
      assert text == [color[0]] + (color[1..] + " " + rest);
      assert text[1..] == color[1..] + " " + rest;
      assert color == [color[0]] + color[1..];
    }
  }

  lemma DecodeStep(text: string, color: string, body: string, line: string, more: string)
    requires text != "" && text[0] == '#'
    requires ReadColor(text[1..]) == Some(Read(color, body))
    requires ReadBody(body) == Some(Read(line, "\n" + more))
    requires Decode(more).Some?
    ensures Decode(text) == Some([(color, line)] + Decode(more).value)
  {
    assert ("\n" + more)[0] == '\n' && ("\n" + more)[1..] == more;
  }

  lemma PassageText(color: string, escaped: string, more: string)
    ensures ("#" + color + " " + escaped + "#\n" + more)[1..] == color + " " + (escaped + ("#" + ("\n" + more)))
  {
  }

  lemma DecodePassage(color: string, line: string, more: string)
    requires ' ' !in color && Decode(more).Some?
    ensures Decode("#" + color + " " + Escape(line) + "#\n" + more) == Some([(color, line)] + Decode(more).value)
  {
    var body := Escape(line) + ("#" + ("\n" + more));
    PassageText(color, Escape(line), more);
    ReadColorBack(color, body);
    ReadEscaped(line, "\n" + more);
    DecodeStep("#" + color + " " + Escape(line) + "#\n" + more, color, body, line, more);
  }

  lemma ColorHasNoSpace(line: string)
    ensures ' ' !in ColorOf(line)
  {
    assert ' ' !in WHITE && ' ' !in MUTED && ' ' !in RED && ' ' !in GREEN;
  }

  /** The log can be read back from what is shown, whatever the lines contain. */
  lemma {:induction false} DecodeRender(lines: seq<string>)
    ensures Decode(Render(lines)) == Some(Colored(lines))
  {
    if lines != [] {
      DecodeRender(lines[1..]);
      ColorHasNoSpace(lines[0]);
      DecodePassage(ColorOf(lines[0]), lines[0], Render(lines[1..]));
    }
  }

  lemma {:induction false} ColoredLines(lines: seq<string>)
    ensures |Colored(lines)| == |lines|
    ensures forall i: nat | i < |lines| :: Colored(lines)[i] == (ColorOf(lines[i]), lines[i])
  {
    if lines != [] {
      ColoredLines(lines[1..]);
    }
  }

  /** So different logs never look the same. */
  lemma RenderInjective(a: seq<string>, b: seq<string>)
    ensures Render(a) == Render(b) <==> a == b
  {
    if Render(a) == Render(b) {
      DecodeRender(a);
      DecodeRender(b);
      ColoredLines(a);
      ColoredLines(b);
      assert forall i: nat | i < |a| :: a[i] == Colored(a)[i].1 == Colored(b)[i].1 == b[i];
    }
  }

  // ---------------------------------------------------------------- colors

  predicate WordAt(word: string, s: string, i: nat) {
    i <= |s| && word <= s[i..]
  }

  lemma {:induction false} OccursMeaning(word: string, s: string)
    ensures Occurs(word, s) <==> exists i: nat :: WordAt(word, s, i)
  {
    assert s[0..] == s;
    if word <= s {
      assert WordAt(word, s, 0);
    } else if s != "" {
      OccursMeaning(word, s[1..]);
      if i: nat :| WordAt(word, s, i) {
        assert s[1..][i - 1..] == s[i..];
        assert WordAt(word, s[1..], i - 1);
      }
      if i: nat :| WordAt(word, s[1..], i) {
        assert s[1..][i..] == s[i + 1..];
        assert WordAt(word, s, i + 1);
      }
    }
  }

  // The letters of "error", in capitals or not, at a place of the line.
  predicate ErrorAt(line: string, i: nat) {
    && i + 5 <= |line|
    && line[i] in "eE" && line[i + 1] in "rR" && line[i + 2] in "rR" && line[i + 3] in "oO" && line[i + 4] in "rR"
  }

  lemma LowerLetters(c: char)
    ensures Lower(c) == 'e' <==> c in "eE"
    ensures Lower(c) == 'r' <==> c in "rR"
    ensures Lower(c) == 'o' <==> c in "oO"
  {
  }

  lemma ErrorPlace(line: string, i: nat)
    ensures ErrorAt(line, i) <==> WordAt("error", LowerAll(line), i)
  {
    var lower, word := LowerAll(line), "error";
    assert |word| == 5 && word[0] == 'e' && word[1] == 'r' && word[2] == 'r' && word[3] == 'o' && word[4] == 'r';
    if i + 5 <= |line| {
      forall k: nat | k < 5
        ensures lower[i..][k] == Lower(line[i + k])
      {
        LowerLetters(line[i + k]);
      }
      LowerLetters(line[i]);
      LowerLetters(line[i + 1]);
      LowerLetters(line[i + 2]);
      LowerLetters(line[i + 3]);
      LowerLetters(line[i + 4]);
      assert word <= lower[i..] <==> forall k: nat | k < 5 :: lower[i..][k] == word[k];
    }
  }

  lemma ErrorOccurs(line: string)
    ensures Occurs("error", LowerAll(line)) <==> exists i: nat :: ErrorAt(line, i)
  {
    OccursMeaning("error", LowerAll(line));
    if i: nat :| ErrorAt(line, i) {
      ErrorPlace(line, i);
    }
    if i: nat :| WordAt("error", LowerAll(line), i) {
      ErrorPlace(line, i);
    }
  }

  /** A line is red exactly if it is not a comment and begins with "!!" or has the word "error" somewhere. */
  lemma RedMeaning(line: string)
    ensures ColorOf(line) == "FF6467" <==> !("//" <= line) && ("!!" <= line || exists i: nat :: ErrorAt(line, i))
  {
    ErrorOccurs(line);
    assert RED[0] != MUTED[0] && RED[1] != WHITE[1] && RED[0] != GREEN[0];
  }

  // Somewhere in the line.
  ghost predicate HasError(line: string) {
    exists i: nat :: ErrorAt(line, i)
  }

  /** What each color says of a line: comments are gray, errors red, acknowledgements without the word
      "error" green, and what is none of these white. */
  lemma ColorMeaning(line: string)
    ensures ColorOf(line) == "A1A1A1" <==> "//" <= line
    ensures ColorOf(line) == "FF6467" <==> "!!" <= line || (HasError(line) && !("//" <= line))
    ensures ColorOf(line) == "4ADE80" <==> "ok" <= line && !HasError(line)
    ensures ColorOf(line) == "FAFAFA" <==>
            !("//" <= line) && !("!!" <= line) && !("ok" <= line) && !HasError(line)
  {
    ErrorOccurs(line);
    assert RED[0] != MUTED[0] && RED[1] != WHITE[1] && RED[0] != GREEN[0];
    assert MUTED[0] != WHITE[0] && MUTED[0] != GREEN[0] && WHITE[0] != GREEN[0];
    assert "//"[0] != "!!"[0] && "//"[0] != "ok"[0] && "!!"[0] != "ok"[0];
  }

  lemma {:induction false} NoHash(line: string)
    requires '#' !in line
    ensures Escape(line) == line
  {
    if line != "" {
      NoHash(line[1..]);
      assert line == [line[0]] + line[1..];
    }
  }

  lemma PlainMarkup(line: string)
    requires '#' !in line
    ensures Render([line]) == "#" + ColorOf(line) + " " + line + "#\n"
  {
    NoHash(line);
    assert [line][1..] == [];
  }

  /** The text that is shown for a log of one line without '#'. */
  lemma MarkupMeaning(line: string)
    requires '#' !in line
    ensures "//" <= line ==> Render([line]) == "#" + "A1A1A1" + " " + line + "#\n"
    ensures "!!" <= line ==> Render([line]) == "#" + "FF6467" + " " + line + "#\n"
    ensures "ok" <= line && !HasError(line) ==> Render([line]) == "#" + "4ADE80" + " " + line + "#\n"
  {
    PlainMarkup(line);
    ColorMeaning(line);
  }

  // ---------------------------------------------------------------- the log

  /** The lines of a response that are logged: those before the first that is not a string. */
  lemma {:induction false} StringsMeaning(items: seq<Json>)
    ensures var ss := Strings(items);
            && |ss| <= |items| && (forall i: nat | i < |ss| :: items[i] == Str(ss[i]))
            && (|ss| < |items| ==> !items[|ss|].Str?)
  {
    if items != [] && items[0].Str? {
      StringsMeaning(items[1..]);
    }
  }

  /** Every line logged since the log was last cleared, `lines` being there at the start. */
  function Logged(lines: seq<string>, evs: seq<Event>): seq<string>
    decreases |evs|
  {
    if evs == [] then lines else
    Logged(match evs[0]
           case Submit(cmd) => lines + (if cmd == "" then [] else ["> " + cmd])
           case Response(items) => lines + Strings(items)
           case ClearLog => []
           case _ => lines,
           evs[1..])
  }

  lemma LastAppend<T>(s: seq<T>, t: seq<T>, n: nat)
    ensures Last(Last(s, n) + t, n) == Last(s + t, n)
  {
    if |s| > n {
      assert s == s[..|s| - n] + s[|s| - n..];
      assert (s + t)[|s| - n..] == s[|s| - n..] + t;
    }
  }

  lemma AppendLogOnly(c: Console, line: string)
    ensures Append(c, line).log == Last(c.log + [line], LOG_LIMIT)
  {
  }

  lemma {:induction false} AppendAllLog(c: Console, lines: seq<string>)
    requires |c.log| <= LOG_LIMIT
    ensures AppendAll(c, lines).log == Last(c.log + lines, LOG_LIMIT)
    decreases |lines|
  {
    if lines == [] {
      assert c.log + lines == c.log;
    } else {
      AppendLogOnly(c, lines[0]);
      AppendAllLog(Append(c, lines[0]), lines[1..]);
      LastAppend(c.log + [lines[0]], lines[1..], LOG_LIMIT);
      Regroup(c.log, [lines[0]], lines[1..]);
      assert [lines[0]] + lines[1..] == lines;
    }
  }

  lemma {:induction false} AppendAllShown(c: Console, lines: seq<string>)
    requires c.shown == Render(c.log)
    ensures AppendAll(c, lines).shown == Render(AppendAll(c, lines).log)
    decreases |lines|
  {
    if lines != [] {
      AppendAllShown(Append(c, lines[0]), lines[1..]);
    }
  }

  /** After any run the log is the last 150 of the lines logged since the last clear, and the label is
      its markup, from which it can be read back. */
  lemma {:induction false} LogIsLastLines(c: Console, lines: seq<string>, evs: seq<Event>)
    requires c.log == Last(lines, LOG_LIMIT) && c.shown == Render(c.log)
    ensures var d := Run(c, evs);
            && d.log == Last(Logged(lines, evs), 150)
            && d.shown == Render(d.log)
            && Decode(d.shown) == Some(Colored(d.log))
    decreases |evs|
  {
    if evs == [] {
      DecodeRender(c.log);
    } else {
      var n := Next(c, evs[0]);
      match evs[0] {
        case Submit(cmd) =>
          LastAppend(lines, ["> " + cmd], LOG_LIMIT);
          assert lines + [] == lines;
          LogIsLastLines(n, lines + (if cmd == "" then [] else ["> " + cmd]), evs[1..]);
        case Response(items) =>
          AppendAllLog(c, Strings(items));
          AppendAllShown(c, Strings(items));
          LastAppend(lines, Strings(items), LOG_LIMIT);
          LogIsLastLines(n, lines + Strings(items), evs[1..]);
        case ClearLog =>
          LogIsLastLines(n, [], evs[1..]);
        case _ =>
          LogIsLastLines(n, lines, evs[1..]);
      }
    }
  }

  // ---------------------------------------------------------------- the history

  /** The commands of a run, none of them empty. */
  function Commands(evs: seq<Event>): seq<string>
    decreases |evs|
  {
    if evs == [] then []
    else StepCommands(evs[0]) + Commands(evs[1..])
  }

  function StepCommands(e: Event): seq<string> {
    if e.Submit? && e.cmd != "" then [e.cmd] else []
  }

  /** The history without a limit: most recent first, a command equal to the front is not repeated. */
  function Unlimited(history: seq<string>, cmds: seq<string>): seq<string>
    decreases |cmds|
  {
    if cmds == [] then history
    else Unlimited(Push(history, cmds[0]), cmds[1..])
  }

  function Limit(history: seq<string>): nat {
    if |history| < 20 then 20 else |history|
  }

  // Macros that arrive with a stored history, which then replaces the present one.
  predicate Loads(e: Event) {
    e.Macros? && !e.db.Null? && Stored(e.db, []).Ok?
  }

  // Runs in which no stored history is loaded.
  predicate NoLoad(evs: seq<Event>) {
    forall e <- evs :: !Loads(e)
  }

  // A history that is the limited part of an unlimited one, and stays at its limit if that is beyond 20.
  predicate Tracks(history: seq<string>, all: seq<string>, limit: nat) {
    && history != [] && history == First(all, limit)
    && limit >= HISTORY_LIMIT && (limit == HISTORY_LIMIT || |history| == limit)
  }

  /** The unlimited history after one more command. */
  function Push(all: seq<string>, cmd: string): seq<string> {
    if all != [] && all[0] == cmd then all else [cmd] + all
  }

  lemma RememberLimited(history: seq<string>, all: seq<string>, cmd: string, limit: nat)
    requires Tracks(history, all, limit)
    ensures Tracks(Remember(history, cmd), Push(all, cmd), limit)
  {
    assert history[0] == all[0];
    if history[0] != cmd {
      var next := [cmd] + all;
      if |history| == limit {
        assert next[..limit] == [cmd] + all[..limit - 1];
        assert history[..limit - 1] == all[..limit - 1];
      } else {
        assert history == all && |history| < HISTORY_LIMIT;
      }
    }
  }

  lemma AppendAllHistory(c: Console, lines: seq<string>)
    ensures AppendAll(c, lines).history == c.history && AppendAll(c, lines).sent == c.sent
    decreases |lines|
  {
    if lines != [] {
      AppendAllHistory(Append(c, lines[0]), lines[1..]);
    }
  }

  lemma StepHistory(c: Console, e: Event)
    requires !Loads(e)
    ensures Next(c, e).history == if StepCommands(e) == [] then c.history else Remember(c.history, e.cmd)
  {
    if e.Response? {
      AppendAllHistory(c, Strings(e.lines));
    }
  }

  lemma {:induction false} HistoryFollows(c: Console, all: seq<string>, limit: nat, evs: seq<Event>)
    requires NoLoad(evs)
    requires Tracks(c.history, all, limit)
    ensures Run(c, evs).history == First(Unlimited(all, Commands(evs)), limit)
    decreases |evs|
  {
    if evs != [] {
      StepHistory(c, evs[0]);
      var n := Next(c, evs[0]);
      if StepCommands(evs[0]) != [] {
        var cmd := evs[0].cmd;
        RememberLimited(c.history, all, cmd, limit);
        HistoryFollows(n, Push(all, cmd), limit, evs[1..]);
        assert Commands(evs)[1..] == Commands(evs[1..]);
      } else {
        HistoryFollows(n, all, limit, evs[1..]);
        assert Commands(evs) == Commands(evs[1..]);
      }
    }
  }

  /** From a stored history that is not empty, the history is the beginning of the unlimited one: its first
      20 entries, or as many as it had when it was already longer. */
  lemma HistoryIsRecentCommands(c: Console, evs: seq<Event>)
    requires NoLoad(evs) && c.history != []
    ensures Run(c, evs).history == First(Unlimited(c.history, Commands(evs)), Limit(c.history))
  {
    HistoryFollows(c, c.history, Limit(c.history), evs);
  }

  /** An empty history never records anything: commands are remembered exactly if there was a history. */
  lemma {:induction false} EmptyHistoryStaysEmpty(c: Console, evs: seq<Event>)
    requires NoLoad(evs)
    ensures Run(c, evs).history == [] <==> c.history == []
    decreases |evs|
  {
    if evs != [] {
      StepHistory(c, evs[0]);
      EmptyHistoryStaysEmpty(Next(c, evs[0]), evs[1..]);
    }
  }

  /** Loading: a list of strings becomes the history, string by string, and null leaves the history; the macro
      names are added after those already known, and the chips show both again from the beginning. What is
      neither null nor such a list changes nothing. */
  lemma LoadMeaning(c: Console, db: Json, keys: seq<string>)
    ensures var q := Next(c, Macros(db, keys));
            if db.Null? then
              && q == c.(macros := c.macros + keys, chips := q.chips)
              && q.chips == ChipsFor("", c.history, c.macros + keys)
            else if db.Arr? && forall item <- db.items :: item.Str? then
              && q == c.(history := q.history, macros := c.macros + keys, chips := q.chips)
              && |q.history| == |db.items| && (forall i: nat | i < |db.items| :: db.items[i] == Str(q.history[i]))
              && q.chips == ChipsFor("", q.history, c.macros + keys)
            else q == c
  {
    if db.Arr? {
      StringsMeaning(db.items);
    }
  }

  lemma {:induction false} RunAppend(c: Console, a: seq<Event>, b: seq<Event>)
    ensures Run(c, a + b) == Run(Run(c, a), b)
    decreases |a|
  {
    if a == [] {
      assert a + b == b;
    } else {
      assert (a + b)[1..] == a[1..] + b;
      RunAppend(Next(c, a[0]), a[1..], b);
    }
  }

  /** From the last load on: whatever came before, the history is the beginning of the unlimited one over the
      strings that were stored, or stays empty if there were none. */
  lemma HistorySinceLoad(c: Console, before: seq<Event>, stored: seq<string>, keys: seq<string>, evs: seq<Event>)
    requires NoLoad(evs)
    ensures var items := seq(|stored|, i requires 0 <= i < |stored| => Str(stored[i]));
            Run(c, before + ([Macros(Arr(items), keys)] + evs)).history ==
            if stored == [] then [] else First(Unlimited(stored, Commands(evs)), Limit(stored))
  {
    var items := seq(|stored|, i requires 0 <= i < |stored| => Str(stored[i]));
    var e := Macros(Arr(items), keys);
    var m := Run(c, before);
    var q := Next(m, e);
    RunAppend(c, before, [e] + evs);
    assert ([e] + evs)[1..] == evs;
    assert Run(m, [e] + evs) == Run(q, evs);
    LoadMeaning(m, Arr(items), keys);
    assert q.history == stored;
    if stored == [] {
      EmptyHistoryStaysEmpty(q, evs);
    } else {
      HistoryIsRecentCommands(q, evs);
    }
  }

  lemma AppendAllPosted(c: Console, lines: seq<string>)
    ensures AppendAll(c, lines).posted == c.posted
    decreases |lines|
  {
    if lines != [] {
      AppendAllPosted(Append(c, lines[0]), lines[1..]);
    }
  }

  lemma StepPosts(c: Console, e: Event)
    requires !Loads(e)
    ensures var n := Next(c, e);
            n.posted == c.posted + if n.history == c.history then [] else [n.history]
  {
    if e.Response? {
      AppendAllPosted(c, Strings(e.lines));
      AppendAllHistory(c, Strings(e.lines));
    }
  }

  /** The limited histories after each of some commands. */
  function Recents(history: seq<string>, limit: nat, cmds: seq<string>): (hs: seq<seq<string>>)
    ensures |hs| == |cmds|
  {
    seq(|cmds|, k requires 0 <= k < |cmds| => First(Unlimited(history, cmds[..k + 1]), limit))
  }

  lemma RecentsFirst(all: seq<string>, limit: nat, cmds: seq<string>)
    requires cmds != []
    ensures var next := Push(all, cmds[0]);
            Recents(all, limit, cmds) == [First(next, limit)] + Recents(next, limit, cmds[1..])
  {
    var next := Push(all, cmds[0]);
    forall k: nat | k < |cmds|
      ensures Recents(all, limit, cmds)[k] == ([First(next, limit)] + Recents(next, limit, cmds[1..]))[k]
    {
      var some := cmds[..k + 1];
      assert some[0] == cmds[0] && some[1..] == cmds[1..][..k];
      assert Unlimited(all, some) == Unlimited(next, cmds[1..][..k]);
      if k == 0 {
        assert cmds[1..][..0] == [];
      } else {
        assert Recents(next, limit, cmds[1..])[k - 1] == First(Unlimited(next, cmds[1..][..k]), limit);
      }
    }
  }

  function Remembered(history: seq<string>, cmds: seq<string>): seq<seq<string>>
    decreases |cmds|
  {
    if cmds == [] then [] else
    var h := Remember(history, cmds[0]);
    [h] + Remembered(h, cmds[1..])
  }

  lemma {:induction false} RememberedIsRecent(history: seq<string>, all: seq<string>, limit: nat, cmds: seq<string>)
    requires Tracks(history, all, limit)
    ensures Remembered(history, cmds) == Recents(all, limit, cmds)
    decreases |cmds|
  {
    if cmds != [] {
      RememberLimited(history, all, cmds[0], limit);
      RememberedIsRecent(Remember(history, cmds[0]), Push(all, cmds[0]), limit, cmds[1..]);
      RecentsFirst(all, limit, cmds);
    }
  }

  lemma {:induction false} PostsFollow(c: Console, evs: seq<Event>)
    requires NoLoad(evs)
    ensures Run(c, evs).posted == c.posted + Changes(c.history, Remembered(c.history, Commands(evs)))
    decreases |evs|
  {
    if evs != [] {
      StepHistory(c, evs[0]);
      StepPosts(c, evs[0]);
      PostsFollow(Next(c, evs[0]), evs[1..]);
      PostsJoin(c, Next(c, evs[0]), Run(c, evs).posted, StepCommands(evs[0]), Commands(evs[1..]));
    }
  }

  lemma PostsJoin(c: Console, n: Console, posted: seq<seq<string>>, first: seq<string>, cmds: seq<string>)
    requires |first| <= 1 && n.history == (if first == [] then c.history else Remember(c.history, first[0]))
    requires n.posted == c.posted + if n.history == c.history then [] else [n.history]
    requires posted == n.posted + Changes(n.history, Remembered(n.history, cmds))
    ensures posted == c.posted + Changes(c.history, Remembered(c.history, first + cmds))
  {
    if first == [] {
      assert first + cmds == cmds && n.posted == c.posted;
    } else {
      var rest := Remembered(n.history, cmds);
      assert Remembered(c.history, first + cmds) == [n.history] + rest by {
        assert first == [first[0]];
        RememberedFirst(c.history, first[0], cmds);
      }
      PostsOne(c.posted, n.posted, posted, c.history, n.history, rest);
    }
  }

  lemma RememberedFirst(history: seq<string>, cmd: string, cmds: seq<string>)
    ensures Remembered(history, [cmd] + cmds) == [Remember(history, cmd)] + Remembered(Remember(history, cmd), cmds)
  {
    assert ([cmd] + cmds)[1..] == cmds;
  }

  lemma PostsOne<T>(a: seq<T>, b: seq<T>, c: seq<T>, before: T, next: T, more: seq<T>)
    requires b == a + (if next == before then [] else [next]) && c == b + Changes(next, more)
    ensures c == a + Changes(before, [next] + more)
  {
    assert [next][1..] == [];
    ChangesJoin(a, b, c, before, next, [next], more);
  }

  lemma {:induction false} EmptyRemembersNothing(cmds: seq<string>)
    ensures Changes([], Remembered([], cmds)) == []
  {
    if cmds != [] {
      EmptyRemembersNothing(cmds[1..]);
      assert Remembered([], cmds)[1..] == Remembered([], cmds[1..]);
    }
  }

  /** The database is given exactly the histories after each command, where they differ from the one
      before; so the last one it was given is the history. Without a history it is given nothing. */
  lemma StoredHistoryIsCurrent(c: Console, evs: seq<Event>)
    requires NoLoad(evs)
    ensures var d := Run(c, evs); var hs := Recents(c.history, Limit(c.history), Commands(evs));
            && d.posted == c.posted + (if c.history == [] then [] else Changes(c.history, hs))
            && (if d.posted == c.posted then d.history == c.history else d.posted[|d.posted| - 1] == d.history)
  {
    PostsFollow(c, evs);
    if c.history == [] {
      EmptyRemembersNothing(Commands(evs));
      EmptyHistoryStaysEmpty(c, evs);
      assert c.posted + [] == c.posted;
    } else {
      LastRecent(c, evs);
      LastChange(c.posted, c.history, Recents(c.history, Limit(c.history), Commands(evs)), Run(c, evs).history);
    }
  }

  lemma LastRecent(c: Console, evs: seq<Event>)
    requires NoLoad(evs) && c.history != []
    ensures var hs := Recents(c.history, Limit(c.history), Commands(evs));
            Remembered(c.history, Commands(evs)) == hs && ([c.history] + hs)[|hs|] == Run(c, evs).history
  {
    var cmds, limit := Commands(evs), Limit(c.history);
    RememberedIsRecent(c.history, c.history, limit, cmds);
    HistoryIsRecentCommands(c, evs);
    if cmds != [] {
      assert cmds[..|cmds|] == cmds;
      assert Recents(c.history, limit, cmds)[|cmds| - 1] == First(Unlimited(c.history, cmds), limit);
    }
  }

  lemma LastChange<T>(posted: seq<T>, before: T, values: seq<T>, last: T)
    requires ([before] + values)[|values|] == last
    ensures var now := posted + Changes(before, values);
            if now == posted then last == before else now[|now| - 1] == last
  {
    ChangesMeaning(before, values);
    var more := Changes(before, values);
    assert |posted + more| == |posted| + |more|;
  }

  lemma StepSends(c: Console, e: Event)
    ensures Next(c, e).sent == c.sent + StepCommands(e)
  {
    match e
    case Response(items) => AppendAllHistory(c, Strings(items));
    case _ =>
  }

  /** Every command that is not empty is sent, once and in order. */
  lemma {:induction false} CommandsAreSent(c: Console, evs: seq<Event>)
    ensures Run(c, evs).sent == c.sent + Commands(evs)
    decreases |evs|
  {
    if evs != [] {
      StepSends(c, evs[0]);
      CommandsAreSent(Next(c, evs[0]), evs[1..]);
      Regroup(c.sent, StepCommands(evs[0]), Commands(evs[1..]));
    }
  }

  // ---------------------------------------------------------------- the chips

  function MatchIndices(f: string -> bool, ms: seq<string>): (idx: seq<nat>)
    ensures forall k: nat | k < |idx| :: idx[k] < |ms|
  {
    if ms == [] then [] else
    var n := |ms| - 1;
    MatchIndices(f, ms[..n]) + if f(ms[n]) then [n] else []
  }

  lemma {:induction false} FilterMeaning(f: string -> bool, ms: seq<string>)
    ensures var idx, r := MatchIndices(f, ms), Filter(f, ms);
            && |r| == |idx| && (forall k: nat | k < |idx| :: r[k] == ms[idx[k]])
            && (forall j: nat, k: nat | j < k < |idx| :: idx[j] < idx[k])
            && (forall i: nat | i < |ms| :: i in idx <==> f(ms[i]))
  {
    if ms != [] {
      var n := |ms| - 1;
      FilterMeaning(f, ms[..n]);
      var idx, before := MatchIndices(f, ms), MatchIndices(f, ms[..n]);
      var hit := f(ms[n]);
      assert idx == before + if hit then [n] else [];
      assert Filter(f, ms) == Filter(f, ms[..n]) + if hit then [ms[n]] else [];
      forall i: nat | i < |ms|
        ensures i in idx <==> f(ms[i])
      {
        assert i < n ==> ms[..n][i] == ms[i] && (i in before <==> f(ms[i]));
        assert i == n ==> i !in before;
      }
    }
  }

  lemma {:induction false} FilterAppend(f: string -> bool, a: seq<string>, b: seq<string>)
    ensures Filter(f, a + b) == Filter(f, a) + Filter(f, b)
  {
    if b == [] {
      assert a + b == a;
    } else {
      assert (a + b)[..|a + b| - 1] == a + b[..|b| - 1];
      FilterAppend(f, a, b[..|b| - 1]);
    }
  }

  predicate IsCapital(u: char, c: char) {
    if 'a' <= c <= 'z' then u as int == c as int - 32 else u == c
  }

  /** An entry matches if it begins with what is typed, as it is or in capitals throughout. */
  ghost predicate BeginsWith(prefix: string, m: string) {
    || prefix <= m
    || (|prefix| <= |m| && forall k: nat | k < |prefix| :: IsCapital(m[k], prefix[k]))
  }

  lemma MatchesMeaning(prefix: string, m: string)
    ensures Matches(prefix, m) <==> BeginsWith(prefix, m)
  {
    var upper := UpperAll(prefix);
    assert forall k: nat | k < |prefix| :: IsCapital(upper[k], prefix[k]);
    if |prefix| <= |m| && forall k: nat | k < |prefix| :: IsCapital(m[k], prefix[k]) {
      assert forall k: nat | k < |prefix| :: upper[k] == m[k];
    }
  }

  /** The chips are the first 16 of the history entries and then macros that match what is typed, in order;
      fewer than 16 only if there are no more. */
  lemma ChipsMeaning(prefix: string, history: seq<string>, macros: seq<string>)
    ensures var all, chips := history + macros, ChipsFor(prefix, history, macros);
            var idx := MatchIndices(Matcher(prefix), all);
            && |chips| == (if |idx| < 16 then |idx| else 16)
            && (forall k: nat | k < |chips| :: chips[k] == all[idx[k]])
            && (forall j: nat, k: nat | j < k < |idx| :: idx[j] < idx[k])
            && (forall i: nat | i < |all| :: i in idx <==> BeginsWith(prefix, all[i]))
  {
    forall i: nat | i < |history + macros|
      ensures Matches(prefix, (history + macros)[i]) <==> BeginsWith(prefix, (history + macros)[i])
    {
      MatchesMeaning(prefix, (history + macros)[i]);
    }
    FilterAppend(Matcher(prefix), history, macros);
    FilterMeaning(Matcher(prefix), history + macros);
  }

  function TypedNow(prefix: string, e: Event): string {
    match e
    case Type(text) => text
    case Submit(cmd) => if cmd == "" then prefix else ""
    case Macros(db, keys) => if Stored(db, []).Ok? then "" else prefix
    case _ => prefix
  }

  /** What the chips are filtered by: the text typed since the last command or load. */
  function Typed(prefix: string, evs: seq<Event>): string
    decreases |evs|
  {
    if evs == [] then prefix else Typed(TypedNow(prefix, evs[0]), evs[1..])
  }

  function StepReported(e: Event): seq<string> {
    if e.Macros? && Stored(e.db, []).Ok? then e.keys else []
  }

  /** All macro names that were reported, those with a stored history that throws excepted. */
  function Reported(evs: seq<Event>): seq<string>
    decreases |evs|
  {
    if evs == [] then [] else StepReported(evs[0]) + Reported(evs[1..])
  }

  lemma AppendAllKeeps(c: Console, lines: seq<string>)
    ensures var d := AppendAll(c, lines); d.history == c.history && d.macros == c.macros && d.chips == c.chips
    decreases |lines|
  {
    if lines != [] {
      AppendAllKeeps(Append(c, lines[0]), lines[1..]);
    }
  }

  lemma StepChips(c: Console, prefix: string, e: Event)
    requires c.chips == ChipsFor(prefix, c.history, c.macros)
    ensures var n := Next(c, e);
            n.macros == c.macros + StepReported(e) && n.chips == ChipsFor(TypedNow(prefix, e), n.history, n.macros)
  {
    assert c.macros + [] == c.macros;
    if e.Response? {
      AppendAllKeeps(c, Strings(e.lines));
    }
  }

  /** After any run the chips are those of the present history and of all macros reported, filtered by what
      is typed. */
  lemma {:induction false} ChipsAreCurrent(c: Console, prefix: string, evs: seq<Event>)
    requires c.chips == ChipsFor(prefix, c.history, c.macros)
    ensures var d := Run(c, evs);
            && d.macros == c.macros + Reported(evs)
            && d.chips == ChipsFor(Typed(prefix, evs), d.history, d.macros)
    decreases |evs|
  {
    if evs == [] {
      assert c.macros + [] == c.macros;
    } else {
      StepChips(c, prefix, evs[0]);
      ChipsAreCurrent(Next(c, evs[0]), TypedNow(prefix, evs[0]), evs[1..]);
      Regroup(c.macros, StepReported(evs[0]), Reported(evs[1..]));
    }
  }
}
