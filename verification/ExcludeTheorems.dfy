/** What merging, the signature and the shown rows promise. */
module ExcludeTheorems {
  import opened Wrappers
  import opened Json
  import opened ExcludeState

  // ---------------------------------------------------------------- boxes

  lemma {:induction false} HullTightest(vs: seq<Vertex>)
    requires vs != []
    ensures Tightest(Hull(vs), vs)
  {
    var n := |vs| - 1;
    var v, rest, b := vs[n], vs[..n], Hull(vs);
    assert v in vs;
    if n > 0 {
      HullTightest(rest);
      var h := Hull(rest);
      assert forall w <- rest :: w in vs;
      assert forall w <- vs :: w in rest || w == v;
    } else {
      assert vs == [v];
    }
  }

  /** An object's box is the tightest box of its valid polygon vertices; the box around the center is
      used exactly when there is no valid vertex. */
  lemma BoxMeaning(o: map<string, Json>, b: Box)
    requires BoxOf(o) == Ok(b)
    ensures Polygon(o) != [] ==> Tightest(b, Polygon(o)) && forall c: Box | Tightest(c, Polygon(o)) :: c == b
    ensures Polygon(o) == [] ==>
              (if "center" in o && o["center"].Arr? && |o["center"].items| >= 2
               then o["center"].items[0].Num? && o["center"].items[1].Num?
                    && b.x0 + b.x1 == 2.0 * o["center"].items[0].n && b.y0 + b.y1 == 2.0 * o["center"].items[1].n
                    && b.x1 - b.x0 == 8.0 && b.y1 - b.y0 == 8.0
               else b == NO_BOX)
  {
    if Polygon(o) != [] {
      HullTightest(Polygon(o));
    }
  }

  lemma {:induction false} VerticesMeaning(pts: seq<Json>, v: Vertex)
    ensures v in Vertices(pts) <==> exists pt <- pts :: VertexOf(pt) == Some(v)
  {
    if pts != [] {
      var n := |pts| - 1;
      VerticesMeaning(pts[..n], v);
      assert pts == pts[..n] + [pts[n]];
    }
  }

  /** The vertices of an object are those of the entries of its "polygon" that begin with two numbers. */
  lemma PolygonMeaning(o: map<string, Json>, v: Vertex)
    ensures v in Polygon(o) <==>
            && "polygon" in o && o["polygon"].Arr?
            && exists pt <- o["polygon"].items :: pt.Arr? && [Num(v.x), Num(v.y)] <= pt.items
  {
    if "polygon" in o && o["polygon"].Arr? {
      VerticesMeaning(o["polygon"].items, v);
    }
  }

  // ---------------------------------------------------------------- merging

  lemma {:induction false} LastFlagNone(objects: seq<Object>, name: string)
    requires forall o <- objects :: o.name != name
    ensures !LastFlag(objects, name)
  {
    if objects != [] {
      LastFlagNone(objects[..|objects| - 1], name);
    }
  }

  // When all objects of one name agree, the last one's flag is anyone's flag.
  lemma {:induction false} LastFlagAgreed(objects: seq<Object>, i: nat)
    requires i < |objects|
    requires forall j: nat | j < |objects| && objects[j].name == objects[i].name ::
               objects[j].excluded == objects[i].excluded
    ensures LastFlag(objects, objects[i].name) == objects[i].excluded
  {
    var n := |objects| - 1;
    if i < n && objects[n].name != objects[i].name {
      LastFlagAgreed(objects[..n], i);
    }
  }

  /** An object inherits the flag of the last known object of its name. */
  lemma {:induction false} LastFlagMeaning(objects: seq<Object>, i: nat)
    requires i < |objects| && forall j: nat | i < j < |objects| :: objects[j].name != objects[i].name
    ensures LastFlag(objects, objects[i].name) == objects[i].excluded
  {
    if i < |objects| - 1 {
      LastFlagMeaning(objects[..|objects| - 1], i);
    }
  }

  /** An entry that can be read: an object whose name, if it has one, is a string, and whose center, if it is
      needed, begins with two numbers. */
  predicate Readable(o: Json) {
    && o.Obj?
    && ("name" in o.fields ==> o.fields["name"].Str?)
    && (Polygon(o.fields) == [] && "center" in o.fields && o.fields["center"].Arr?
        && |o.fields["center"].items| >= 2 ==>
          o.fields["center"].items[0].Num? && o.fields["center"].items[1].Num?)
  }

  lemma {:induction false} ParseSucceeds(items: seq<Json>, known: seq<Object>)
    ensures ParseObjects(items, known).Ok? <==> forall i: nat | i < |items| :: Readable(items[i])
  {
    if items != [] {
      var n := |items| - 1;
      ParseSucceeds(items[..n], known);
      assert forall i: nat | i < n :: items[..n][i] == items[i];
    }
  }

  /** A report with a list of objects is taken in exactly if every entry can be read; then the list has the
      entries' names, empty where there is none, and their boxes, in order. Any other report is taken in. */
  lemma ListMeaning(st: State, status: Json)
    ensures var r := Merge(st, status);
            if status.Obj? && "objects" in status.fields && status.fields["objects"].Arr? then
              var items := status.fields["objects"].items;
              && (r.Ok? <==> forall i: nat | i < |items| :: Readable(items[i]))
              && (r.Ok? ==> |r.value.objects| == |items|)
              && (r.Ok? ==>
                    forall i: nat | i < |items| ::
                      var f, o := items[i].fields, r.value.objects[i];
                      o.name == (if "name" in f then f["name"].s else "") && BoxOf(f) == Ok(o.box))
            else r.Ok?
  {
    if status.Obj? && HasArray(status.fields, "objects") {
      var items := status.fields["objects"].items;
      ParseSucceeds(items, st.objects);
      if Merge(st, status).Ok? {
        forall i: nat | i < |items|
          ensures ParseObject(items[i], st.objects) == Ok(ParseObjects(items, st.objects).value[i])
        {
          ParseAt(items, st.objects, i);
        }
      }
    }
  }

  /** What a merge makes of the current object: it stays if the report does not name one, and is none if the
      report names something that is no string. Then no named object is highlighted. */
  lemma CurrentMeaning(st: State, f: map<string, Json>)
    requires Merge(st, Obj(f)).Ok?
    ensures var q := Merge(st, Obj(f)).value;
            && ("current_object" !in f ==> q.current == st.current)
            && ("current_object" in f ==> f["current_object"].Str? ==> q.current == f["current_object"].s)
            && ("current_object" in f && !f["current_object"].Str? ==>
                  && q.current == ""
                  && forall i: nat | i < |q.objects| :: Rows(q)[i].highlighted ==> q.objects[i].name == "")
  {
  }

  lemma {:induction false} ParseAt(items: seq<Json>, known: seq<Object>, i: nat)
    requires ParseObjects(items, known).Ok? && i < |items|
    ensures ParseObject(items[i], known) == Ok(ParseObjects(items, known).value[i])
  {
    if i < |items| - 1 {
      ParseAt(items[..|items| - 1], known, i);
    }
  }

  /** Parsing depends on the known objects only through the inherited flags. */
  lemma {:induction false} ParseOther(items: seq<Json>, known: seq<Object>, other: seq<Object>)
    ensures var r, s := ParseObjects(items, known), ParseObjects(items, other);
            && r.Ok? == s.Ok?
            && (r.Ok? ==> forall i: nat | i < |items| ::
                 s.value[i] == r.value[i].(excluded := LastFlag(other, r.value[i].name)) &&
                 r.value[i].excluded == LastFlag(known, r.value[i].name))
  {
    if items != [] {
      ParseOther(items[..|items| - 1], known, other);
    }
  }

  lemma FlagsOf(items: seq<Json>, known: seq<Object>, name: string)
    requires ParseObjects(items, known).Ok?
    ensures var os := ParseObjects(items, known).value;
            LastFlag(os, name) == (LastFlag(known, name) && exists o <- os :: o.name == name)
  {
    var os := ParseObjects(items, known).value;
    ParseOther(items, known, known);
    if exists o <- os :: o.name == name {
      var i: nat :| i < |os| && os[i].name == name;
      LastFlagAgreed(os, i);
    } else {
      LastFlagNone(os, name);
    }
  }

  lemma {:induction false} MarkedFlag(objects: seq<Object>, names: set<string>, name: string)
    ensures LastFlag(Marked(objects, names), name) == (name in names && exists o <- objects :: o.name == name)
  {
    var ms := Marked(objects, names);
    if exists o <- objects :: o.name == name {
      var i: nat :| i < |objects| && objects[i].name == name;
      LastFlagAgreed(ms, i);
    } else {
      LastFlagNone(ms, name);
    }
  }

  /** A status that carries all three fields decides the state: what was known before does not matter. */
  lemma FullStatusDecides(st: State, other: State, status: Json)
    requires status.Obj? && HasArray(status.fields, "objects") && HasArray(status.fields, "excluded_objects")
    requires "current_object" in status.fields
    ensures Merge(st, status) == Merge(other, status)
  {
    var items := status.fields["objects"].items;
    ParseOther(items, st.objects, other.objects);
    var r, s := ParseObjects(items, st.objects), ParseObjects(items, other.objects);
    if r.Ok? {
      var names := Names(status.fields["excluded_objects"].items);
      assert Marked(r.value, names) == Marked(s.value, names);
    }
  }

  /** Merging any status twice is merging it once. */
  lemma MergeTwice(st: State, status: Json)
    requires Merge(st, status).Ok?
    ensures Merge(Merge(st, status).value, status) == Merge(st, status)
  {
    if status.Obj? {
      var f := status.fields;
      var once := MergeObjects(st.objects, f).value;
      var marked := MergeExcluded(once, f);
      if HasArray(f, "objects") {
        var items := f["objects"].items;
        ParseOther(items, st.objects, marked);
        ParseOther(items, st.objects, st.objects);
        var again := ParseObjects(items, marked).value;
        if HasArray(f, "excluded_objects") {
          assert Marked(again, Names(f["excluded_objects"].items)) == marked;
        } else {
          forall i: nat | i < |items|
            ensures again[i] == once[i]
          {
            FlagsOf(items, st.objects, once[i].name);
          }
          assert again == once;
        }
      } else if HasArray(f, "excluded_objects") {
        assert Marked(marked, Names(f["excluded_objects"].items)) == marked;
      }
    }
  }

  // The name an entry of a list of objects brings.
  function NameIn(o: Json): Option<string> {
    if o.Obj? && NameOf(o.fields).Ok? then Some(NameOf(o.fields).value) else None
  }

  // The names a list of objects brings.
  ghost predicate Lists(items: seq<Json>, name: string) {
    exists i: nat :: i < |items| && NameIn(items[i]) == Some(name)
  }

  lemma ListsMeaning(items: seq<Json>, known: seq<Object>, name: string)
    requires ParseObjects(items, known).Ok?
    ensures Lists(items, name) <==> exists o <- ParseObjects(items, known).value :: o.name == name
  {
    var os := ParseObjects(items, known).value;
    forall i: nat | i < |items|
      ensures NameIn(items[i]) == Some(os[i].name)
    {
      ParseAt(items, known, i);
    }
    if exists o <- os :: o.name == name {
      var i: nat :| i < |os| && os[i].name == name;
      assert NameIn(items[i]) == Some(name);
    }
  }

  /** The fields of a report that merging looks at: a list field that is no list is ignored. */
  function Meaningful(f: map<string, Json>): map<string, Json> {
    map k | k in f && (k in {"objects", "excluded_objects"} ==> f[k].Arr?) :: f[k]
  }

  lemma MergeMeaningful(st: State, f: map<string, Json>)
    ensures Merge(st, Obj(Meaningful(f))) == Merge(st, Obj(f))
  {
    KeyNames();
  }

  lemma KeyNames()
    ensures "current_object" != "objects" && "current_object" != "excluded_objects" && "objects" != "excluded_objects"
  {
    assert "current_object"[0] != "objects"[0] && "current_object"[0] != "excluded_objects"[0];
  }

  // The flag an object of that name gets from the first report's exclusions, or else had before it.
  predicate FlaggedAfter(st: State, first: map<string, Json>, name: string) {
    if HasArray(first, "excluded_objects") then name in Names(first["excluded_objects"].items)
    else LastFlag(st.objects, name)
  }

  // Whether an object of that name is in the list after the first report.
  ghost predicate ListedFirst(st: State, first: map<string, Json>, name: string) {
    if HasArray(first, "objects") then Lists(first["objects"].items, name)
    else exists o <- st.objects :: o.name == name
  }

  /** The first report and the second, as one: the second's fields win, if they mean something. */
  function Union(f1: map<string, Json>, f2: map<string, Json>): Json {
    Obj(f1 + Meaningful(f2))
  }

  /** Two reports in turn are their right-biased union exactly if the second brings no list of objects, or
      brings the exclusions too, or lists no flagged object that the first report dropped or did
      not find. (Such an object forgets its exclusion.) */
  lemma MergeComposes(st: State, f1: map<string, Json>, f2: map<string, Json>)
    requires Merge(st, Obj(f1)).Ok? && Merge(Merge(st, Obj(f1)).value, Obj(f2)).Ok?
    ensures Merge(st, Union(f1, f2)).Ok?
    ensures Merge(Merge(st, Obj(f1)).value, Obj(f2)) == Merge(st, Union(f1, f2)) <==>
            || !HasArray(f2, "objects")
            || HasArray(f2, "excluded_objects")
            || forall name | Lists(f2["objects"].items, name) && FlaggedAfter(st, f1, name) :: ListedFirst(st, f1, name)
  {
    KeyNames();
    var f := Union(f1, f2).fields;
    var s1 := Merge(st, Obj(f1)).value;
    if HasArray(f2, "objects") && HasArray(f2, "excluded_objects") {
      var items := f2["objects"].items;
      ParseOther(items, s1.objects, st.objects);
      assert MergeExcluded(ParseObjects(items, s1.objects).value, f2)
          == MergeExcluded(ParseObjects(items, st.objects).value, f);
    } else if HasArray(f2, "objects") {
      ObjectsCompose(st, f1, f2);
    } else if HasArray(f2, "excluded_objects") && HasArray(f1, "excluded_objects") {
      var once := MergeObjects(st.objects, f1).value;
      assert Marked(Marked(once, Names(f1["excluded_objects"].items)), Names(f2["excluded_objects"].items))
          == Marked(once, Names(f2["excluded_objects"].items));
    }
  }

  lemma ObjectsCompose(st: State, f1: map<string, Json>, f2: map<string, Json>)
    requires Merge(st, Obj(f1)).Ok? && HasArray(f2, "objects") && !HasArray(f2, "excluded_objects")
    requires ParseObjects(f2["objects"].items, Merge(st, Obj(f1)).value.objects).Ok?
    ensures var items, f := f2["objects"].items, Union(f1, f2).fields; var univ := ParseObjects(items, st.objects);
            && univ.Ok?
            && (ParseObjects(items, Merge(st, Obj(f1)).value.objects).value == MergeExcluded(univ.value, f) <==>
                  forall name | Lists(items, name) && FlaggedAfter(st, f1, name) :: ListedFirst(st, f1, name))
  {
    KeyNames();
    var items, f := f2["objects"].items, Union(f1, f2).fields;
    var s1 := Merge(st, Obj(f1)).value;
    ParseOther(items, s1.objects, st.objects);
    var seqv, univ := ParseObjects(items, s1.objects).value, ParseObjects(items, st.objects).value;
    var merged := MergeExcluded(univ, f);
    forall i: nat | i < |items|
      ensures seqv[i].excluded == (FlaggedAfter(st, f1, seqv[i].name) && ListedFirst(st, f1, seqv[i].name))
      ensures merged[i] == seqv[i].(excluded := FlaggedAfter(st, f1, seqv[i].name))
      ensures Lists(items, seqv[i].name)
    {
      FlagAfterFirst(st, f1, seqv[i].name);
      ListsMeaning(items, s1.objects, seqv[i].name);
    }
    if forall name | Lists(items, name) && FlaggedAfter(st, f1, name) :: ListedFirst(st, f1, name) {
      assert seqv == merged;
    }
    if seqv == merged {
      forall name | Lists(items, name) && FlaggedAfter(st, f1, name)
        ensures ListedFirst(st, f1, name)
      {
        ListsMeaning(items, s1.objects, name);
      }
    }
  }

  lemma FlagAfterFirst(st: State, f1: map<string, Json>, name: string)
    requires Merge(st, Obj(f1)).Ok?
    ensures LastFlag(Merge(st, Obj(f1)).value.objects, name) ==
            (FlaggedAfter(st, f1, name) && ListedFirst(st, f1, name))
  {
    var once := MergeObjects(st.objects, f1).value;
    if HasArray(f1, "objects") {
      ListsMeaning(f1["objects"].items, st.objects, name);
      FlagsOf(f1["objects"].items, st.objects, name);
    }
    if HasArray(f1, "excluded_objects") {
      MarkedFlag(once, Names(f1["excluded_objects"].items), name);
    } else if !HasArray(f1, "objects") && forall o <- st.objects :: o.name != name {
      LastFlagNone(st.objects, name);
    }
  }

  lemma ParseOne(items: seq<Json>, known: seq<Object>)
    requires |items| == 1 && ParseObject(items[0], known).Ok?
    ensures ParseObjects(items, known) == Ok([ParseObject(items[0], known).value])
  {
    var before := items[..|items| - 1];
    assert before == [] && ParseObjects(before, known) == Ok([]);
    var o := ParseObject(items[0], known).value;
    var none: seq<Object> := [];
    assert none + [o] == [o];
  }

  /** An excluded object that one report leaves out and the next lists again is printed after the two, and
      excluded after their union. */
  lemma DroppedForgets(name: string, box: Box, current: string)
    ensures var st := State([Object(name, box, true)], current);
            var f1 := map["objects" := Arr([])];
            var f2 := map["objects" := Arr([Obj(map["name" := Str(name)])])];
            Merge(Merge(st, Obj(f1)).value, Obj(f2)) != Merge(st, Union(f1, f2))
  {
    KeyNames();
    var st := State([Object(name, box, true)], current);
    var f1 := map["objects" := Arr([])];
    var f2 := map["objects" := Arr([Obj(map["name" := Str(name)])])];
    var items := f2["objects"].items;
    assert |items| == 1 && items[..0] == [] && NameIn(items[0]) == Some(name);
    assert Lists(items, name) && FlaggedAfter(st, f1, name) && !ListedFirst(st, f1, name);
    assert "polygon"[0] != "name"[0] && "center"[0] != "name"[0];
    var none := Merge(st, Obj(f1)).value.objects;
    assert none == [] && ParseObject(items[0], none).Ok?;
    ParseOne(items, none);
    MergeComposes(st, f1, f2);
  }
}
