/** The panel of console_panel.cpp, updated in place. Every method is proved to make the step of the same
    name in ConsoleState. */
module ConsolePanel {
  import opened Wrappers
  import opened Sequences
  import opened Json
  import opened ConsoleState

  function EscapeChar(c: char): string {
    if c == '#' then "##" else [c]
  }

  lemma EscapeNext(done: string, line: string, k: nat)
    requires k < |line|
    ensures done + Escape(line[k..]) == done + EscapeChar(line[k]) + Escape(line[k + 1..])
  {
    assert line[k..][1..] == line[k + 1..];
    Regroup(done, EscapeChar(line[k]), Escape(line[k + 1..]));
  }

  lemma RenderNext(done: string, lines: seq<string>, k: nat)
    requires k < |lines|
    ensures done + Render(lines[k..]) == done + RenderLine(lines[k]) + Render(lines[k + 1..])
  {
    assert lines[k..][1..] == lines[k + 1..];
    Regroup(done, RenderLine(lines[k]), Render(lines[k + 1..]));
  }

  method EscapeLine(line: string) returns (escaped: string)
    ensures escaped == Escape(line)
  {
    escaped := "";
    for k := 0 to |line|
      invariant escaped + Escape(line[k..]) == Escape(line)
    {
      EscapeNext(escaped, line, k);
      if line[k] == '#' {
        escaped := escaped + "##";
      } else {
        escaped := escaped + [line[k]];
      }
    }
    assert line[|line|..] == "";
  }

  method RenderOne(line: string) returns (text: string)
    ensures text == RenderLine(line)
  {
    var escaped := EscapeLine(line);
    var color := PickColor(line);
    text := "#" + color + " " + escaped + "#\n";
  }

  method PickColor(line: string) returns (color: string)
    ensures color == ColorOf(line)
  {
    var lower := LowerAll(line);
    color := WHITE;
    if "//" <= line {
      color := MUTED;
    } else if "!!" <= line || Occurs("error", lower) {
      color := RED;
    } else if "ok" <= line {
      color := GREEN;
    }
  }

  class ConsolePanel {
    var logLines: seq<string>
    var logText: string
    var history: seq<string>
    var allMacros: seq<string>
    var chips: seq<string>
    var sent: seq<string>
    var posted: seq<seq<string>>

    function View(): Console
      reads this
    {
      Console(logLines, logText, history, allMacros, chips, sent, posted)
    }

    constructor ()
      ensures View() == Console([], "", [], [], [], [], [])
    {
      logLines, logText, history, allMacros, chips, sent, posted := [], "", [], [], [], [], [];
    }

    method RefreshLog()
      modifies this`logText
      ensures logText == Render(logLines)
    {
      var text := "";
      for k := 0 to |logLines|
        invariant text + Render(logLines[k..]) == Render(logLines)
      {
        RenderNext(text, logLines, k);
        var line := RenderOne(logLines[k]);
        text := text + line;
      }
      assert logLines[|logLines|..] == [];
      logText := text;
    }

    method ClearTheLog()
      modifies this`logLines, this`logText
      ensures View() == WithLog(old(View()), [])
    {
      logLines := [];
      RefreshLog();
    }

    method AppendLog(line: string)
      modifies this`logLines, this`logText
      ensures View() == Append(old(View()), line)
    {
      logLines := logLines + [line];
      ghost var all := logLines;
      while |logLines| > LOG_LIMIT
        invariant |logLines| <= |all| && logLines == all[|all| - |logLines|..]
        invariant Last(logLines, LOG_LIMIT) == Last(all, LOG_LIMIT)
      {
        logLines := logLines[1..];
      }
      RefreshLog();
    }

    /** Adds a chip for each matching entry, while there is room. */
    method AddMatching(prefix: string, ms: seq<string>, ghost before: seq<string>)
      requires chips == First(before, CHIP_LIMIT)
      modifies this`chips
      ensures chips == First(before + Filter(Matcher(prefix), ms), CHIP_LIMIT)
    {
      ghost var f := Matcher(prefix);
      assert before + [] == before;
      for k := 0 to |ms|
        invariant chips == First(before + Filter(f, ms[..k]), CHIP_LIMIT)
      {
        assert ms[..k + 1][..k] == ms[..k];
        ghost var so := Filter(f, ms[..k]);
        if Matches(prefix, ms[k]) {
          AddChip(ms[k]);
          Regroup(before, so, [ms[k]]);
        } else {
          assert so + [] == so;
        }
      }
      assert ms[..|ms|] == ms;
    }

    /** Shows the matching history entries, then the matching macros, and stops adding at 16. */
    method RefreshChips(prefix: string)
      modifies this`chips
      ensures View() == WithChips(old(View()), prefix)
    {
      chips := [];
      ghost var hs := Filter(Matcher(prefix), history);
      AddMatching(prefix, history, []);
      assert [] + hs == hs;
      AddMatching(prefix, allMacros, hs);
    }

    method AddChip(text: string)
      modifies this`chips
      ensures chips == if |old(chips)| >= CHIP_LIMIT then old(chips) else old(chips) + [text]
    {
      if |chips| >= CHIP_LIMIT {
        return;
      }
      chips := chips + [text];
    }

    /** The keyboard's ready key, or the send button. */
    method HandleCommand(cmd: string)
      modifies this
      ensures View() == SubmitCommand(old(View()), cmd)
    {
      if cmd == "" {
        return;
      }
      ghost var logged := Append(View(), "> " + cmd);
      AppendLog("> " + cmd);
      assert View() == logged;
      sent := sent + [cmd];
      if history != [] {
        if history[0] != cmd {
          if |history| >= HISTORY_LIMIT {
            history := history[..|history| - 1];
          }
          history := [cmd] + history;
          posted := posted + [history];
        }
      }
      assert history == ConsoleState.Remember(logged.history, cmd);
      RefreshChips("");
    }

    /** False when a stored history that is no list of strings ends it with an exception. */
    method HandleMacros(db: Json, keys: seq<string>) returns (ok: bool)
      modifies this
      ensures ok <==> db.Null? || (db.Arr? && forall item <- db.items :: item.Str?)
      ensures if ok then Ok(View()) == LoadMacros(old(View()), db, keys) else View() == old(View())
    {
      if !db.Null? {
        var loaded := Stored(db, history);
        if loaded.Thrown? {
          return false;
        }
        history := loaded.value;
      }
      for k := 0 to |keys|
        invariant allMacros == old(allMacros) + keys[..k]
        invariant View() == old(View()).(history := history, macros := allMacros)
        invariant Stored(db, old(history)) == Ok(history)
      {
        allMacros := allMacros + [keys[k]];
      }
      assert keys[..|keys|] == keys;
      RefreshChips("");
      return true;
    }

    /** False when a line that is not a string ends it with an exception. */
    method HandleResponse(lines: seq<Json>) returns (ok: bool)
      modifies this
      ensures View() == AppendAll(old(View()), Strings(lines))
      ensures ok <==> forall l <- lines :: l.Str?
    {
      for k := 0 to |lines|
        invariant forall i: nat | i < k :: lines[i].Str?
        invariant AppendAll(View(), Strings(lines[k..])) == AppendAll(old(View()), Strings(lines))
      {
        assert lines[k..][0] == lines[k] && lines[k..][1..] == lines[k + 1..];
        if !lines[k].Str? {
          return false;
        }
        AppendLog(lines[k].s);
      }
      return true;
    }
  }
}
