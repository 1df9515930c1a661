/** What the signature of the exclude-object panel tells apart, and what it cannot. */
module ExcludeSignature {
  import opened Sequences
  import opened ExcludeState

  // ---------------------------------------------------------------- the signature tells displays apart

  /** Names the signature can carry: no separator in them, and no '!' at the end. */
  predicate CleanName(name: string) {
    ',' !in name && (name != "" ==> name[|name| - 1] != '!')
  }

  ghost predicate CleanAll(objects: seq<Object>) {
    forall o <- objects :: CleanName(o.name)
  }

  /** The '|' after the current object is found again if it is the only one, or if nothing follows it. */
  ghost predicate Clean(st: State) {
    CleanAll(st.objects) && ('|' !in st.current || st.objects == [])
  }

  lemma CleanParts(objects: seq<Object>)
    requires CleanAll(objects) && objects != []
    ensures CleanAll(objects[..|objects| - 1]) && CleanName(objects[|objects| - 1].name)
  {
  }

  ghost predicate SameEntries(os: seq<Object>, ps: seq<Object>) {
    |os| == |ps| && forall i: nat | i < |os| :: os[i].name == ps[i].name && os[i].excluded == ps[i].excluded
  }

  /** Nothing but boxes differ. */
  ghost predicate Alike(a: State, b: State) {
    a.current == b.current && SameEntries(a.objects, b.objects)
  }

  lemma BarSplits(c: string, d: string, s: string, t: string)
    requires '|' !in c && '|' !in d && c + "|" + s == d + "|" + t
    ensures c == d && s == t
  {
    var u, v := c + "|" + s, d + "|" + t;
    assert u[|c|] == '|' && forall i: nat | i < |c| :: u[i] == c[i];
    assert v[|d|] == '|' && forall i: nat | i < |d| :: v[i] == d[i];
    assert |c| == |d|;
    assert c == u[..|c|] && d == v[..|d|];
    assert s == u[|c| + 1..] && t == v[|d| + 1..];
  }

  function Body(o: Object): string {
    o.name + if o.excluded then "!" else ""
  }

  lemma BodyDecides(o: Object, p: Object)
    requires CleanName(o.name) && CleanName(p.name) && Body(o) == Body(p)
    ensures o.name == p.name && o.excluded == p.excluded
    ensures ',' !in Body(o)
  {
    assert !o.excluded ==> Body(o) == o.name;
    assert !p.excluded ==> Body(p) == p.name;
    assert o.excluded ==> Body(o)[|Body(o)| - 1] == '!' && Body(o)[..|Body(o)| - 1] == o.name;
    assert p.excluded ==> Body(p)[|Body(p)| - 1] == '!' && Body(p)[..|Body(p)| - 1] == p.name;
  }

  predicate Terminated(s: string) {
    s == "" || s[|s| - 1] == ','
  }

  lemma EntriesUnfold(objects: seq<Object>)
    requires objects != []
    ensures var n := |objects| - 1;
            EntriesText(objects) == EntriesText(objects[..n]) + EntryText(objects[n])
    ensures EntriesText(objects) != "" && Terminated(EntriesText(objects[..|objects| - 1]))
  {
  }

  // The last entry of a text can be cut off in one way only.
  lemma LastEntry(s: string, t: string, x: string, y: string)
    requires s + x + "," == t + y + "," && ',' !in x && ',' !in y
    requires Terminated(s) && Terminated(t)
    ensures s == t && x == y
  {
    var u, v := s + x + ",", t + y + ",";
    assert s != "" ==> u[|s| - 1] == ',';
    assert t != "" ==> v[|t| - 1] == ',';
    assert forall i: nat | |s| <= i < |u| - 1 :: u[i] == x[i - |s|];
    assert forall i: nat | |t| <= i < |v| - 1 :: v[i] == y[i - |t|];
    assert |s| == |t|;
    assert s == u[..|s|] && t == v[..|t|];
    assert x == u[|s|..|u| - 1] && y == v[|t|..|v| - 1];
  }

  lemma LastObjectDecides(s: string, t: string, o: Object, p: Object)
    requires CleanName(o.name) && CleanName(p.name) && s + EntryText(o) == t + EntryText(p)
    requires Terminated(s) && Terminated(t)
    ensures s == t && o.name == p.name && o.excluded == p.excluded
  {
    var x, y := Body(o), Body(p);
    NoComma(o);
    NoComma(p);
    Regroup(s, x, ",");
    Regroup(t, y, ",");
    LastEntry(s, t, x, y);
    BodyDecides(o, p);
  }

  lemma {:induction false} EntriesDecide(os: seq<Object>, ps: seq<Object>)
    requires CleanAll(os) && CleanAll(ps) && EntriesText(os) == EntriesText(ps)
    ensures SameEntries(os, ps)
    decreases |os|
  {
    if os == [] || ps == [] {
      EntriesEmpty(os);
      EntriesEmpty(ps);
    } else {
      EntriesUnfold(os);
      EntriesUnfold(ps);
      CleanParts(os);
      CleanParts(ps);
      var m, n := |os| - 1, |ps| - 1;
      LastObjectDecides(EntriesText(os[..m]), EntriesText(ps[..n]), os[m], ps[n]);
      EntriesDecide(os[..m], ps[..n]);
      SameEntriesExtend(os, ps);
    }
  }

  lemma EntriesEmpty(objects: seq<Object>)
    ensures EntriesText(objects) == "" <==> objects == []
  {
  }

  lemma SameEntriesExtend(os: seq<Object>, ps: seq<Object>)
    requires os != [] && ps != [] && SameEntries(os[..|os| - 1], ps[..|ps| - 1])
    requires os[|os| - 1].name == ps[|ps| - 1].name && os[|os| - 1].excluded == ps[|ps| - 1].excluded
    ensures SameEntries(os, ps)
  {
    var n := |os| - 1;
    forall i: nat | i < n
      ensures os[i].name == ps[i].name && os[i].excluded == ps[i].excluded
    {
      assert os[..n][i] == os[i] && ps[..n][i] == ps[i];
    }
  }

  lemma NoComma(o: Object)
    requires CleanName(o.name)
    ensures ',' !in Body(o)
  {
  }

  lemma {:induction false} EntriesSame(os: seq<Object>, ps: seq<Object>)
    requires SameEntries(os, ps)
    ensures EntriesText(os) == EntriesText(ps)
    decreases |os|
  {
    if os != [] {
      EntriesSame(os[..|os| - 1], ps[..|ps| - 1]);
    }
  }

  lemma OneEmpty(a: State, b: State)
    requires a.objects == [] && b.objects != []
    ensures Signature(a) != Signature(b)
  {
    var n := |b.objects| - 1;
    assert Signature(a)[|Signature(a)| - 1] == '|';
    assert EntryText(b.objects[n])[|EntryText(b.objects[n])| - 1] == ',';
    assert Signature(b)[|Signature(b)| - 1] == ',';
  }

  /** For clean displays, equal signatures mean the same current object, names and flags, and only they do. */
  lemma SignatureDecides(a: State, b: State)
    requires Clean(a) && Clean(b)
    ensures Signature(a) == Signature(b) <==> Alike(a, b)
  {
    if Signature(a) == Signature(b) {
      if a.objects == [] && b.objects == [] {
        assert Signature(a)[..|a.current|] == a.current && Signature(b)[..|b.current|] == b.current;
      } else if a.objects == [] {
        OneEmpty(a, b);
      } else if b.objects == [] {
        OneEmpty(b, a);
      } else {
        BarSplits(a.current, b.current, EntriesText(a.objects), EntriesText(b.objects));
        EntriesDecide(a.objects, b.objects);
      }
    }
    if Alike(a, b) {
      EntriesSame(a.objects, b.objects);
    }
  }

  // ---------------------------------------------------------------- what the signature cannot tell

  lemma EntriesSnoc(objects: seq<Object>, o: Object)
    ensures EntriesText(objects + [o]) == EntriesText(objects) + EntryText(o)
  {
    var all := objects + [o];
    assert all[..|all| - 1] == objects && all[|all| - 1] == o;
  }

  lemma {:induction false} EntriesAppend(xs: seq<Object>, ys: seq<Object>)
    ensures EntriesText(xs + ys) == EntriesText(xs) + EntriesText(ys)
    decreases |ys|
  {
    if ys == [] {
      assert xs + ys == xs;
    } else {
      var before, last := ys[..|ys| - 1], ys[|ys| - 1];
      assert xs + ys == xs + before + [last] && ys == before + [last];
      EntriesAppend(xs, before);
      EntriesSnoc(xs + before, last);
      EntriesSnoc(before, last);
      Regroup(EntriesText(xs), EntriesText(before), EntryText(last));
    }
  }

  lemma EntriesOne(o: Object)
    ensures EntriesText([o]) == EntryText(o)
  {
    assert [o][..0] == [];
    assert EntriesText([o]) == "" + EntryText(o);
  }

  /** The display with the object at `k` replaced. */
  function Swapped(st: State, k: nat, with: seq<Object>): State
    requires k < |st.objects|
  {
    st.(objects := st.objects[..k] + with + st.objects[k + 1..])
  }

  lemma SwappedSignature(st: State, k: nat, with: seq<Object>)
    requires k < |st.objects| && EntriesText(with) == EntryText(st.objects[k])
    ensures Signature(Swapped(st, k, with)) == Signature(st)
  {
    var pre, o, post := st.objects[..k], [st.objects[k]], st.objects[k + 1..];
    assert st.objects == pre + o + post;
    EntriesOne(st.objects[k]);
    EntriesAppend(pre, o);
    EntriesAppend(pre + o, post);
    EntriesAppend(pre, with);
    EntriesAppend(pre + with, post);
  }

  // Cutting a name at a comma.
  function Halves(o: Object, i: nat): seq<Object>
    requires i < |o.name|
  {
    [Object(o.name[..i], o.box, false), Object(o.name[i + 1..], o.box, o.excluded)]
  }

  lemma HalvesText(o: Object, i: nat)
    requires i < |o.name| && o.name[i] == ','
    ensures EntriesText(Halves(o, i)) == EntryText(o)
  {
    var l, r := Halves(o, i)[0], Halves(o, i)[1];
    assert Halves(o, i) == [l] + [r];
    EntriesAppend([l], [r]);
    EntriesOne(l);
    EntriesOne(r);
    HalvesJoin(l.name, r.name, if o.excluded then "!" else "");
    assert o.name == l.name + "," + r.name;
  }

  lemma HalvesJoin(l: string, r: string, flag: string)
    ensures (l + "" + ",") + (r + flag + ",") == l + "," + r + flag + ","
  {
  }

  // The same text with the '!' on the other side of the border between name and flag.
  function Banged(o: Object): Object
    requires o.name != ""
  {
    if o.excluded then o.(name := o.name + "!", excluded := false)
    else o.(name := o.name[..|o.name| - 1], excluded := true)
  }

  lemma BangedText(o: Object)
    requires o.name != "" && o.name[|o.name| - 1] == '!'
    ensures EntryText(Banged(o)) == EntryText(o) && Banged(o).excluded != o.excluded
  {
    assert o.name == o.name[..|o.name| - 1] + "!";
    assert o.name + "!" + "" + "," == o.name + "!" + ",";
    assert o.name + "" + "," == o.name + ",";
  }

  // The part of the current object behind a '|' moved into the first name.
  function Shifted(st: State, i: nat): State
    requires i < |st.current| && st.objects != []
  {
    var o := st.objects[0];
    State([o.(name := st.current[i + 1..] + "|" + o.name)] + st.objects[1..], st.current[..i])
  }

  lemma FirstEntry(st: State)
    requires st.objects != []
    ensures Signature(st) == st.current + "|" + (EntryText(st.objects[0]) + EntriesText(st.objects[1..]))
  {
    var o, rest := st.objects[0], st.objects[1..];
    assert st.objects == [o] + rest;
    EntriesAppend([o], rest);
    EntriesOne(o);
  }

  lemma ShiftedSignature(st: State, i: nat)
    requires i < |st.current| && st.current[i] == '|' && st.objects != []
    ensures Signature(Shifted(st, i)) == Signature(st)
  {
    FirstEntry(st);
    FirstEntry(Shifted(st, i));
    var o, x, y := st.objects[0], st.current[..i], st.current[i + 1..];
    assert st.current == x + "|" + y;
    assert Shifted(st, i).objects[1..] == st.objects[1..];
    ShiftedEntry(o, y);
    BarJoin(x, y, EntryText(o), EntriesText(st.objects[1..]));
  }

  lemma ShiftedEntry(o: Object, y: string)
    ensures EntryText(o.(name := y + "|" + o.name)) == y + "|" + EntryText(o)
  {
    ShiftJoin(y, o.name, (if o.excluded then "!" else "") + ",");
  }

  lemma ShiftJoin(y: string, name: string, end: string)
    ensures y + "|" + name + end == y + "|" + (name + end)
  {
  }

  lemma BarJoin(x: string, y: string, entry: string, rest: string)
    ensures x + "|" + (y + "|" + entry + rest) == x + "|" + y + "|" + (entry + rest)
  {
  }

  lemma ShiftedTitle(y: string, name: string)
    ensures DisplayName(y + "|" + name) != DisplayName(name)
  {
    var long := y + "|" + name;
    assert |DisplayName(long)| == |long|;
    if name == "" {
      assert DisplayName(long)[|y|] == '|';
      assert '|' !in "Object";
    }
  }

  /** Every display that is not clean has the signature of one with other rows. */
  lemma UncleanCollides(st: State) returns (other: State)
    requires !Clean(st)
    ensures Signature(other) == Signature(st) && Rows(other) != Rows(st)
  {
    if CleanAll(st.objects) {
      var i: nat :| i < |st.current| && st.current[i] == '|';
      other := Shifted(st, i);
      ShiftedSignature(st, i);
      ShiftedTitle(st.current[i + 1..], st.objects[0].name);
      assert Rows(other)[0].title != Rows(st)[0].title;
    } else {
      var k: nat :| k < |st.objects| && !CleanName(st.objects[k].name);
      var o := st.objects[k];
      if ',' in o.name {
        var i: nat :| i < |o.name| && o.name[i] == ',';
        HalvesText(o, i);
        other := Swapped(st, k, Halves(o, i));
        SwappedSignature(st, k, Halves(o, i));
        assert |Rows(other)| != |Rows(st)|;
      } else {
        BangedText(o);
        EntriesOne(Banged(o));
        other := Swapped(st, k, [Banged(o)]);
        SwappedSignature(st, k, [Banged(o)]);
        assert Rows(other)[k].dimmed != Rows(st)[k].dimmed;
      }
    }
  }

  lemma AlikeRows(a: State, b: State)
    requires Alike(a, b)
    ensures Rows(a) == Rows(b)
  {
  }

  lemma SignatureNotEmpty(st: State)
    ensures Signature(st) != ""
  {
    assert Signature(st)[|st.current|] == '|';
  }
}
