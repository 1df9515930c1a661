/** The exclude-object panel: the objects of a print, merged from partial status reports, and what is
    shown of them. */
module ExcludeState {
  import opened Wrappers
  import opened Numbers
  import opened Json

  /** A bounding box on the bed, in mm. */
  datatype Box = Box(x0: real, y0: real, x1: real, y1: real)

  datatype Object = Object(name: string, box: Box, excluded: bool)

  datatype State = State(objects: seq<Object>, current: string)

  datatype Vertex = Vertex(x: real, y: real)

  // ---------------------------------------------------------------- bounding boxes

  /** A polygon entry that counts: an array that begins with two numbers. */
  function VertexOf(pt: Json): Option<Vertex> {
    if pt.Arr? && |pt.items| >= 2 && pt.items[0].Num? && pt.items[1].Num?
    then Some(Vertex(pt.items[0].n, pt.items[1].n)) else None
  }

  function Vertices(pts: seq<Json>): seq<Vertex> {
    if pts == [] then [] else
    var v := VertexOf(pts[|pts| - 1]);
    Vertices(pts[..|pts| - 1]) + if v.Some? then [v.value] else []
  }

  ghost predicate Inside(b: Box, v: Vertex) {
    b.x0 <= v.x <= b.x1 && b.y0 <= v.y <= b.y1
  }

  /** The smallest box around some vertices: it contains them all, and each side touches one. */
  ghost predicate Tightest(b: Box, vs: seq<Vertex>) {
    && (forall v <- vs :: Inside(b, v))
    && (exists v <- vs :: v.x == b.x0) && (exists v <- vs :: v.x == b.x1)
    && (exists v <- vs :: v.y == b.y0) && (exists v <- vs :: v.y == b.y1)
  }

  function Hull(vs: seq<Vertex>): Box
    requires vs != []
  {
    var v := vs[|vs| - 1];
    if |vs| == 1 then Box(v.x, v.y, v.x, v.y) else
    var b := Hull(vs[..|vs| - 1]);
    Box(MinR(b.x0, v.x), MinR(b.y0, v.y), MaxR(b.x1, v.x), MaxR(b.y1, v.y))
  }

  function Polygon(o: map<string, Json>): seq<Vertex> {
    if "polygon" in o && o["polygon"].Arr? then Vertices(o["polygon"].items) else []
  }

  const NO_BOX := Box(0.0, 0.0, 0.0, 0.0)
  const CENTER_HALF := 4.0

  /** Reading the center throws when its coordinates are not numbers; it is read only if no vertex counts. */
  function BoxOf(o: map<string, Json>): Result<Box> {
    if Polygon(o) != [] then Ok(Hull(Polygon(o)))
    else if "center" in o && o["center"].Arr? && |o["center"].items| >= 2 then
      var c := o["center"].items;
      if c[0].Num? && c[1].Num?
      then Ok(Box(c[0].n - CENTER_HALF, c[1].n - CENTER_HALF, c[0].n + CENTER_HALF, c[1].n + CENTER_HALF))
      else Thrown
    else Ok(NO_BOX)
  }

  // ---------------------------------------------------------------- merging a status

  function NameOf(o: map<string, Json>): Result<string> {
    if "name" !in o then Ok("") else if o["name"].Str? then Ok(o["name"].s) else Thrown
  }

  /** The flag of the last of the objects with that name; false if there is none. */
  function LastFlag(objects: seq<Object>, name: string): bool {
    if objects == [] then false
    else if objects[|objects| - 1].name == name then objects[|objects| - 1].excluded
    else LastFlag(objects[..|objects| - 1], name)
  }

  function ParseObject(o: Json, known: seq<Object>): Result<Object> {
    if !o.Obj? then Thrown else
    var name :- NameOf(o.fields);
    var box :- BoxOf(o.fields);
    Ok(Object(name, box, LastFlag(known, name)))
  }

  function ParseObjects(items: seq<Json>, known: seq<Object>): (r: Result<seq<Object>>)
    ensures r.Ok? ==> |r.value| == |items|
  {
    if items == [] then Ok([]) else
    var before :- ParseObjects(items[..|items| - 1], known);
    var last :- ParseObject(items[|items| - 1], known);
    Ok(before + [last])
  }

  function Names(items: seq<Json>): set<string> {
    set i | 0 <= i < |items| && items[i].Str? :: items[i].s
  }

  function Marked(objects: seq<Object>, names: set<string>): (r: seq<Object>)
    ensures |r| == |objects|
  {
    seq(|objects|, i requires 0 <= i < |objects| => objects[i].(excluded := objects[i].name in names))
  }

  predicate HasArray(status: map<string, Json>, key: string) {
    key in status && status[key].Arr?
  }

  function MergeObjects(objects: seq<Object>, status: map<string, Json>): Result<seq<Object>> {
    if HasArray(status, "objects") then ParseObjects(status["objects"].items, objects) else Ok(objects)
  }

  function MergeExcluded(objects: seq<Object>, status: map<string, Json>): seq<Object> {
    if HasArray(status, "excluded_objects") then Marked(objects, Names(status["excluded_objects"].items)) else objects
  }

  function MergeCurrent(current: string, status: map<string, Json>): string {
    if "current_object" !in status then current
    else if status["current_object"].Str? then status["current_object"].s
    else ""
  }

  function Merge(st: State, status: Json): Result<State> {
    if !status.Obj? then Ok(st) else
    var objects :- MergeObjects(st.objects, status.fields);
    Ok(State(MergeExcluded(objects, status.fields), MergeCurrent(st.current, status.fields)))
  }

  // ---------------------------------------------------------------- the signature

  function EntryText(o: Object): string {
    o.name + (if o.excluded then "!" else "") + ","
  }

  function EntriesText(objects: seq<Object>): string {
    if objects == [] then "" else EntriesText(objects[..|objects| - 1]) + EntryText(objects[|objects| - 1])
  }

  function Signature(st: State): string {
    st.current + "|" + EntriesText(st.objects)
  }

  // ---------------------------------------------------------------- what is shown

  function DisplayName(name: string): (r: string)
    ensures r != ""
  {
    if name == "" then "Object" else seq(|name|, i requires 0 <= i < |name| => if name[i] == '_' then ' ' else name[i])
  }

  /** One row of the list and the emphasis of its box on the map. */
  datatype Row = Row(number: nat, title: string, status: string, dimmed: bool, highlighted: bool)

  function RowOf(st: State, i: nat): Row
    requires i < |st.objects|
  {
    var o := st.objects[i];
    Row(i + 1, DisplayName(o.name),
        if o.excluded then "Excluded" else if o.name == st.current then "Printing now" else "Printing",
        o.excluded, o.name == st.current && !o.excluded)
  }

  function Rows(st: State): (rows: seq<Row>)
    ensures |rows| == |st.objects|
  {
    seq(|st.objects|, i requires 0 <= i < |st.objects| => RowOf(st, i))
  }
}
