/** The console panel: a bounded log shown as recolor markup, a bounded command history, and shortcut chips. */
module ConsoleState {
  import opened Wrappers
  import opened Json

  const LOG_LIMIT: nat := 150
  const HISTORY_LIMIT: nat := 20
  const CHIP_LIMIT: nat := 16

  // ---------------------------------------------------------------- text

  function Lower(c: char): char {
    if 'A' <= c <= 'Z' then c - 'A' + 'a' else c
  }

  function Upper(c: char): char {
    if 'a' <= c <= 'z' then c - 'a' + 'A' else c
  }

  function LowerAll(s: string): string {
    seq(|s|, i requires 0 <= i < |s| => Lower(s[i]))
  }

  function UpperAll(s: string): string {
    seq(|s|, i requires 0 <= i < |s| => Upper(s[i]))
  }

  predicate Occurs(word: string, s: string) {
    word <= s || (s != "" && Occurs(word, s[1..]))
  }

  const WHITE := "FAFAFA"
  const MUTED := "A1A1A1"
  const RED := "FF6467"
  const GREEN := "4ADE80"

  function ColorOf(line: string): string {
    if "//" <= line then MUTED
    else if "!!" <= line || Occurs("error", LowerAll(line)) then RED
    else if "ok" <= line then GREEN
    else WHITE
  }

  function Escape(line: string): string {
    if line == "" then "" else (if line[0] == '#' then "##" else [line[0]]) + Escape(line[1..])
  }

  function RenderLine(line: string): string {
    "#" + ColorOf(line) + " " + Escape(line) + "#\n"
  }

  function Render(lines: seq<string>): string {
    if lines == [] then "" else RenderLine(lines[0]) + Render(lines[1..])
  }

  // ---------------------------------------------------------------- the panel

  /** `shown` is the text of the log, `chips` the shortcuts shown, `sent` the commands given to the
      printer and `posted` the histories stored in the database. */
  datatype Console = Console(log: seq<string>, shown: string, history: seq<string>, macros: seq<string>,
                             chips: seq<string>, sent: seq<string>, posted: seq<seq<string>>)

  datatype Event =
    | Submit(cmd: string)
    | Type(prefix: string)
    | Response(lines: seq<Json>)
    | ClearLog
    | Macros(db: Json, keys: seq<string>)

  function Last<T>(s: seq<T>, n: nat): seq<T> {
    if |s| <= n then s else s[|s| - n..]
  }

  function First<T>(s: seq<T>, n: nat): (r: seq<T>)
    ensures |r| <= n && r <= s
  {
    if |s| <= n then s else s[..n]
  }

  function WithLog(c: Console, log: seq<string>): Console {
    c.(log := log, shown := Render(log))
  }

  /** append_log */
  function Append(c: Console, line: string): Console {
    WithLog(c, Last(c.log + [line], LOG_LIMIT))
  }

  predicate Matches(prefix: string, m: string) {
    prefix == "" || UpperAll(prefix) <= m || prefix <= m
  }

  function Matcher(prefix: string): string -> bool {
    m => Matches(prefix, m)
  }

  function Filter(f: string -> bool, ms: seq<string>): seq<string> {
    if ms == [] then [] else
    Filter(f, ms[..|ms| - 1]) + if f(ms[|ms| - 1]) then [ms[|ms| - 1]] else []
  }

  /** refresh_chips */
  function ChipsFor(prefix: string, history: seq<string>, macros: seq<string>): seq<string> {
    First(Filter(Matcher(prefix), history) + Filter(Matcher(prefix), macros), CHIP_LIMIT)
  }

  function WithChips(c: Console, prefix: string): Console {
    c.(chips := ChipsFor(prefix, c.history, c.macros))
  }

  /** The history after a command; an empty history stays empty. */
  function Remember(history: seq<string>, cmd: string): seq<string> {
    if history == [] || history[0] == cmd then history
    else [cmd] + (if |history| >= HISTORY_LIMIT then history[..|history| - 1] else history)
  }

  function SubmitCommand(c: Console, cmd: string): Console {
    if cmd == "" then c else
    var d := Append(c, "> " + cmd);
    var h := Remember(d.history, cmd);
    var posted := if h == d.history then d.posted else d.posted + [h];
    WithChips(d.(history := h, sent := d.sent + [cmd], posted := posted), "")
  }

  /** The lines of a response up to the first that is not a string, where an exception ends it. */
  function Strings(items: seq<Json>): seq<string> {
    if items == [] || !items[0].Str? then [] else [items[0].s] + Strings(items[1..])
  }

  function AppendAll(c: Console, lines: seq<string>): Console
    decreases |lines|
  {
    if lines == [] then c else AppendAll(Append(c, lines[0]), lines[1..])
  }

  /** The history to go on with: none is stored, or a list of strings; anything else throws. */
  function Stored(db: Json, history: seq<string>): Result<seq<string>> {
    if db.Null? then Ok(history)
    else if db.Arr? && forall item <- db.items :: item.Str? then Ok(Strings(db.items))
    else Thrown
  }

  function LoadMacros(c: Console, db: Json, keys: seq<string>): Result<Console> {
    var history :- Stored(db, c.history);
    Ok(WithChips(c.(history := history, macros := c.macros + keys), ""))
  }

  function Next(c: Console, e: Event): Console {
    match e
    case Submit(cmd) => SubmitCommand(c, cmd)
    case Type(prefix) => WithChips(c, prefix)
    case Response(lines) => AppendAll(c, Strings(lines))
    case ClearLog => WithLog(c, [])
    case Macros(db, keys) => var r := LoadMacros(c, db, keys); if r.Ok? then r.value else c
  }

  function Run(c: Console, evs: seq<Event>): Console
    decreases |evs|
  {
    if evs == [] then c else Run(Next(c, evs[0]), evs[1..])
  }
}
