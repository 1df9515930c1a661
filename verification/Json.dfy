/** JSON trees as the program's library holds them, JSON Pointers (RFC 6901) and JSON Merge Patch
    (RFC 7396). */
module Json {
  import opened Wrappers

  datatype Json =
    | Null
    | Bool(b: bool)
    | Num(n: real)
    | Str(s: string)
    | Arr(items: seq<Json>)
    | Obj(fields: map<string, Json>)

  type Path = seq<string>

  // ---------------------------------------------------------------- JSON Pointer text (RFC 6901, sections 3 and 4)

  function Split(s: string): (parts: seq<string>)
    ensures parts != []
  {
    if s == [] then [""] else
    var rest := Split(s[1..]);
    if s[0] == '/' then [""] + rest else [[s[0]] + rest[0]] + rest[1..]
  }

  function Unescape(s: string): Result<string> {
    if s == [] then Ok([])
    else if s[0] != '~' then
      var rest :- Unescape(s[1..]);
      Ok([s[0]] + rest)
    else if |s| >= 2 && (s[1] == '0' || s[1] == '1') then
      var rest :- Unescape(s[2..]);
      Ok([if s[1] == '0' then '~' else '/'] + rest)
    else Thrown
  }

  function UnescapeAll(parts: seq<string>): (r: Result<Path>)
    ensures r.Ok? ==> |r.value| == |parts|
  {
    if parts == [] then Ok([]) else
    var first :- Unescape(parts[0]);
    var rest :- UnescapeAll(parts[1..]);
    Ok([first] + rest)
  }

  function ParsePointer(s: string): Result<Path> {
    if s == [] then Ok([])
    else if s[0] != '/' then Thrown
    else UnescapeAll(Split(s[1..]))
  }

  lemma {:induction false} SplitAt(a: string, b: string)
    ensures Split(a + "/" + b) == Split(a) + Split(b)
  {
    if a == [] {
      assert (a + "/" + b)[1..] == b;
    } else {
      assert (a + "/" + b)[1..] == a[1..] + "/" + b;
      SplitAt(a[1..], b);
    }
  }

  lemma {:induction false} SplitWhole(s: string)
    ensures '/' !in s <==> |Split(s)| == 1
    ensures '/' !in s ==> Split(s) == [s]
  {
    if s != [] {
      SplitWhole(s[1..]);
      assert s == [s[0]] + s[1..];
    }
  }

  lemma {:induction false} UnescapePlain(s: string)
    ensures var r := Unescape(s); r.Ok? ==> |r.value| <= |s| && (|r.value| == |s| ==> '~' !in s)
    ensures '~' !in s ==> Unescape(s) == Ok(s)
  {
    if s != [] {
      if s[0] != '~' {
        UnescapePlain(s[1..]);
        assert s == [s[0]] + s[1..];
      } else if |s| >= 2 {
        UnescapePlain(s[2..]);
      }
    }
  }

  lemma {:induction false} UnescapeAllAppend(a: seq<string>, b: seq<string>)
    ensures var r, s, t := UnescapeAll(a + b), UnescapeAll(a), UnescapeAll(b);
            if s.Ok? && t.Ok? then r == Ok(s.value + t.value) else r == Thrown
  {
    if a == [] {
      assert a + b == b;
      var t := UnescapeAll(b);
      assert t.Ok? ==> [] + t.value == t.value;
    } else {
      assert (a + b)[1..] == a[1..] + b;
      UnescapeAllAppend(a[1..], b);
      var f, x, y := Unescape(a[0]), UnescapeAll(a[1..]), UnescapeAll(b);
      if f.Ok? && x.Ok? && y.Ok? {
        assert [f.value] + (x.value + y.value) == [f.value] + x.value + y.value;
      }
    }
  }

  // Every '~' is followed by '0' or '1'.
  ghost predicate TildesPaired(s: string) {
    forall i: nat | i < |s| && s[i] == '~' :: i + 1 < |s| && s[i + 1] in "01"
  }

  /** That is exactly when a text can be unescaped. */
  lemma {:induction false} UnescapeMeaning(s: string)
    ensures Unescape(s).Ok? <==> TildesPaired(s)
    decreases |s|
  {
    if s != [] {
      if s[0] != '~' {
        UnescapeMeaning(s[1..]);
        TildesBehind(s, 1);
      } else if |s| >= 2 && s[1] in "01" {
        UnescapeMeaning(s[2..]);
        TildesBehind(s, 2);
      }
    }
  }

  lemma TildesBehind(s: string, n: nat)
    requires 1 <= n <= 2 && n <= |s| && (s[0] == '~' <==> n == 2) && (n == 2 ==> s[1] in "01")
    ensures TildesPaired(s) <==> TildesPaired(s[n..])
  {
    var t := s[n..];
    if TildesPaired(t) {
      forall i: nat | i < |s| && s[i] == '~'
        ensures i + 1 < |s| && s[i + 1] in "01"
      {
        if i >= n {
          assert t[i - n] == '~';
        }
      }
    }
    if TildesPaired(s) {
      forall i: nat | i < |t| && t[i] == '~'
        ensures i + 1 < |t| && t[i + 1] in "01"
      {
        assert s[i + n] == '~';
      }
    }
  }

  function EscapeToken(t: string): string {
    if t == [] then []
    else (if t[0] == '~' then "~0" else if t[0] == '/' then "~1" else [t[0]]) + EscapeToken(t[1..])
  }

  function PointerText(p: Path): string {
    if p == [] then "" else "/" + EscapeToken(p[0]) + PointerText(p[1..])
  }

  lemma {:induction false} EscapedToken(t: string)
    ensures '/' !in EscapeToken(t) && Unescape(EscapeToken(t)) == Ok(t)
  {
    if t != [] {
      EscapedToken(t[1..]);
      var e, rest := EscapeToken(t), EscapeToken(t[1..]);
      assert t == [t[0]] + t[1..];
      if t[0] == '~' || t[0] == '/' {
        assert e[0] == '~' && e[2..] == rest;
      } else {
        assert e[1..] == rest;
      }
    }
  }

  lemma TokenBefore(t: string, rest: string, p: Path)
    requires UnescapeAll(Split(rest)) == Ok(p)
    ensures UnescapeAll(Split(EscapeToken(t) + "/" + rest)) == Ok([t] + p)
  {
    TokenAlone(t);
    SplitAt(EscapeToken(t), rest);
    UnescapeAllAppend(Split(EscapeToken(t)), Split(rest));
  }

  lemma TokenAlone(t: string)
    ensures UnescapeAll(Split(EscapeToken(t))) == Ok([t])
  {
    EscapedToken(t);
    var text := EscapeToken(t);
    SplitWhole(text);
    assert [text][1..] == [];
    assert [t] + [] == [t];
  }

  lemma SlashJoin(first: string, more: string)
    ensures ("/" + first + more)[1..] == first + more
    ensures more != "" && more[0] == '/' ==> first + more == first + "/" + more[1..]
    ensures more == "" ==> first + more == first
  {
    if more != "" && more[0] == '/' {
      assert more == "/" + more[1..];
    }
  }

  lemma PointerSlash(p: Path)
    ensures if p == [] then PointerText(p) == "" else PointerText(p) != "" && PointerText(p)[0] == '/'
  {
  }

  lemma PointerTail(p: Path)
    requires p != []
    ensures p[1..] == [] ==> PointerText(p)[1..] == EscapeToken(p[0])
    ensures p[1..] != [] ==> PointerText(p)[1..] == EscapeToken(p[0]) + "/" + PointerText(p[1..])[1..]
  {
    SlashJoin(EscapeToken(p[0]), PointerText(p[1..]));
    PointerSlash(p[1..]);
  }

  lemma {:induction false} PathText(p: Path)
    requires p != []
    ensures UnescapeAll(Split(PointerText(p)[1..])) == Ok(p)
  {
    PointerTail(p);
    assert p == [p[0]] + p[1..];
    if p[1..] == [] {
      TokenAlone(p[0]);
    } else {
      PathText(p[1..]);
      TokenBefore(p[0], PointerText(p[1..])[1..], p[1..]);
    }
  }

  /** A path written with its tokens escaped is read back as that path. */
  lemma PointerRoundTrip(p: Path)
    ensures ParsePointer(PointerText(p)) == Ok(p)
  {
    if p != [] {
      PathText(p);
      assert PointerText(p)[0] == '/';
    }
  }

  // ---------------------------------------------------------------- one step of a pointer

  predicate Digits(t: string) {
    forall i: nat | i < |t| :: '0' <= t[i] <= '9'
  }

  // A null that is indexed with such a token becomes an array instead of an object.
  predicate ArrayToken(t: string) {
    t == "-" || Digits(t)
  }

  /** A position in an array: digits without a leading zero (RFC 6901, section 4). */
  predicate IsIndex(t: string) {
    t != "" && Digits(t) && (t[0] == '0' ==> |t| == 1)
  }

  lemma DashIsNoIndex()
    ensures !IsIndex("-")
  {
    assert "-"[0] == '-';
  }

  function Decimal(t: string): nat
    requires Digits(t)
  {
    if t == "" then 0 else 10 * Decimal(t[..|t| - 1]) + (t[|t| - 1] as nat - '0' as nat)
  }

  function IndexText(n: nat): (t: string)
    ensures t != "" && Digits(t)
  {
    var digit := ['0' + (n % 10) as char];
    if n < 10 then digit else IndexText(n / 10) + digit
  }

  /** A position written in decimal is read back as that position. */
  lemma {:induction false} IndexRoundTrip(n: nat)
    ensures IsIndex(IndexText(n)) && Decimal(IndexText(n)) == n && (IndexText(n)[0] == '0' ==> n == 0)
  {
    var t := IndexText(n);
    if n >= 10 {
      IndexRoundTrip(n / 10);
      assert t[..|t| - 1] == IndexText(n / 10);
    } else {
      assert t[..0] == "" && Decimal(t[..0]) == 0;
    }
  }

  lemma {:induction false} DecimalSize(t: string)
    requires IsIndex(t) && t != "0"
    ensures Decimal(t) >= 1 && (|t| > 1 ==> Decimal(t) >= 10)
  {
    if |t| > 1 {
      DecimalSize(t[..|t| - 1]);
    }
  }

  lemma {:induction false} DecimalInjective(t: string, u: string)
    requires IsIndex(t) && IsIndex(u)
    ensures Decimal(t) == Decimal(u) <==> t == u
    decreases |t|
  {
    if Decimal(t) == Decimal(u) {
      if |t| > 1 {
        DecimalSize(t);
      }
      if |u| > 1 {
        DecimalSize(u);
      }
      if |t| > 1 && |u| > 1 {
        DecimalInjective(t[..|t| - 1], u[..|u| - 1]);
      }
      assert t == t[..|t| - 1] + [t[|t| - 1]] && u == u[..|u| - 1] + [u[|u| - 1]];
    }
  }

  predicate Has(d: Json, t: string) {
    (d.Obj? && t in d.fields) || (d.Arr? && IsIndex(t) && Decimal(t) < |d.items|)
  }

  /** A missing child appears as null. */
  function Child(d: Json, t: string): Json {
    if d.Obj? && t in d.fields then d.fields[t]
    else if d.Arr? && IsIndex(t) && Decimal(t) < |d.items| then d.items[Decimal(t)]
    else Null
  }

  /** A step through a scalar throws, and so does a step through an array by anything but a position or
      "-", the place behind its end. */
  predicate CanStep(d: Json, t: string) {
    if d.Obj? || (d.Null? && !ArrayToken(t)) then true
    else (d.Arr? || d.Null?) && (t == "-" || IsIndex(t))
  }

  // The object or array the step goes through; a null becomes one.
  function Holder(d: Json, t: string): (h: Json)
    requires CanStep(d, t)
    ensures h.Obj? || (h.Arr? && (t == "-" || IsIndex(t)))
  {
    if !d.Null? then d else if ArrayToken(t) then Arr([]) else Obj(map[])
  }

  // Beyond the end, the gap is filled with nulls.
  function SetAt(items: seq<Json>, i: nat, v: Json): (s: seq<Json>)
    ensures |s| == (if i < |items| then |items| else i + 1) && s[i] == v
    ensures forall j: nat | j < |s| && j != i :: s[j] == if j < |items| then items[j] else Null
  {
    if i < |items| then items[i := v] else items + seq(i - |items|, _ => Null) + [v]
  }

  function Store(h: Json, t: string, v: Json): Json
    requires h.Obj? || (h.Arr? && (t == "-" || IsIndex(t)))
  {
    if h.Obj? then Obj(h.fields[t := v])
    else if t == "-" then Arr(h.items + [v])
    else Arr(SetAt(h.items, Decimal(t), v))
  }

  predicate AppendsAt(d: Json, t: string) {
    t == "-" && (d.Arr? || d.Null?)
  }

  function Stepped(d: Json, t: string, v: Json): Json
    requires CanStep(d, t)
  {
    Store(Holder(d, t), t, v)
  }

  lemma StepThere(d: Json, t: string, v: Json)
    requires CanStep(d, t) && !AppendsAt(d, t)
    ensures Has(Stepped(d, t, v), t) && Child(Stepped(d, t, v), t) == v
  {
  }

  lemma StepElsewhere(d: Json, t: string, v: Json, u: string)
    requires CanStep(d, t) && t != u
    ensures Has(d, u) ==> Has(Stepped(d, t, v), u) && Child(Stepped(d, t, v), u) == Child(d, u)
    ensures !AppendsAt(d, t) ==> Child(Stepped(d, t, v), u) == Child(d, u)
  {
    if IsIndex(t) && IsIndex(u) {
      DecimalInjective(t, u);
    }
  }

  lemma StepTwice(d: Json, t: string, v: Json, w: Json)
    requires CanStep(d, t) && !AppendsAt(d, t)
    ensures CanStep(Stepped(d, t, v), t) && Stepped(Stepped(d, t, v), t, w) == Stepped(d, t, w)
  {
    var h := Holder(d, t);
    if h.Obj? {
      assert h.fields[t := v][t := w] == h.fields[t := w];
    } else {
      assert SetAt(SetAt(h.items, Decimal(t), v), Decimal(t), w) == SetAt(h.items, Decimal(t), w);
    }
  }

  lemma StepSame(d: Json, t: string)
    requires Has(d, t)
    ensures CanStep(d, t) && !AppendsAt(d, t) && Stepped(d, t, Child(d, t)) == d
  {
    DashIsNoIndex();
    if d.Obj? {
      assert d.fields[t := d.fields[t]] == d.fields;
    } else {
      assert SetAt(d.items, Decimal(t), d.items[Decimal(t)]) == d.items;
    }
  }

  // ---------------------------------------------------------------- access through a pointer

  function Get(d: Json, p: Path): Option<Json>
    decreases |p|
  {
    if p == [] then Some(d)
    else if Has(d, p[0]) then Get(Child(d, p[0]), p[1..])
    else None
  }

  /** The value a reference `data[pointer]` shows: a missing member appears as null. */
  function At(d: Json, p: Path): Json {
    var g := Get(d, p);
    if g.Some? then g.value else Null
  }

  lemma AtStep(d: Json, p: Path)
    requires p != []
    ensures At(d, p) == At(Child(d, p[0]), p[1..])
  {
    if !Has(d, p[0]) && p[1..] != [] {
      assert !Has(Null, p[1..][0]);
    }
  }

  function Member(d: Json, t: string): Json {
    if d.Obj? && t in d.fields then d.fields[t] else Null
  }

  /** Assigning to `data[pointer]`: nulls on the way become objects or arrays, missing members and
      positions are created, and what cannot be stepped through throws. */
  function Put(d: Json, p: Path, v: Json): Result<Json>
    decreases |p|
  {
    if p == [] then Ok(v)
    else if !CanStep(d, p[0]) then Thrown
    else
      var child :- Put(Child(d, p[0]), p[1..], v);
      Ok(Stepped(d, p[0], child))
  }

  /** Evaluating `data[pointer]` as a reference, which creates what is missing. */
  function Touch(d: Json, p: Path): Result<Json> {
    Put(d, p, At(d, p))
  }

  /** The pointer goes behind the end of an array, so every use of it adds another element. */
  predicate Appends(d: Json, p: Path)
    decreases |p|
  {
    p != [] && (AppendsAt(d, p[0]) || Appends(Child(d, p[0]), p[1..]))
  }

  /** Every step of the pointer is possible. */
  ghost predicate Opens(d: Json, p: Path) {
    forall k: nat | k < |p| :: CanStep(At(d, p[..k]), p[k])
  }

  // Neither path leads through the other.
  predicate Diverge(p: Path, q: Path) {
    p != [] && q != [] && (p[0] != q[0] || Diverge(p[1..], q[1..]))
  }

  lemma OpensStep(d: Json, p: Path)
    requires p != []
    ensures Opens(d, p) <==> CanStep(d, p[0]) && Opens(Child(d, p[0]), p[1..])
  {
    assert p[..0] == [] && At(d, []) == d;
    forall k: nat | k < |p| - 1
      ensures At(d, p[..k + 1]) == At(Child(d, p[0]), p[1..][..k]) && p[1..][k] == p[k + 1]
    {
      AtStep(d, p[..k + 1]);
      assert p[..k + 1][1..] == p[1..][..k];
    }
    if CanStep(d, p[0]) && Opens(Child(d, p[0]), p[1..]) {
      forall k: nat | k < |p|
        ensures CanStep(At(d, p[..k]), p[k])
      {
        if k > 0 {
          assert CanStep(At(Child(d, p[0]), p[1..][..k - 1]), p[1..][k - 1]);
        }
      }
    }
    if Opens(d, p) {
      forall k: nat | k < |p[1..]|
        ensures CanStep(At(Child(d, p[0]), p[1..][..k]), p[1..][k])
      {
        assert CanStep(At(d, p[..k + 1]), p[k + 1]);
      }
    }
  }

  /** An assignment throws exactly if one of its steps is not possible. */
  lemma {:induction false} PutOpens(d: Json, p: Path, v: Json)
    ensures Put(d, p, v).Ok? <==> Opens(d, p)
    decreases |p|
  {
    if p != [] {
      OpensStep(d, p);
      PutOpens(Child(d, p[0]), p[1..], v);
    }
  }

  lemma {:induction false} PutThenGet(d: Json, p: Path, v: Json, rest: Path)
    requires Put(d, p, v).Ok? && !Appends(d, p)
    ensures Get(Put(d, p, v).value, p + rest) == Get(v, rest)
    decreases |p|
  {
    if p == [] {
      assert p + rest == rest;
    } else {
      assert (p + rest)[1..] == p[1..] + rest;
      PutThenGet(Child(d, p[0]), p[1..], v, rest);
      StepThere(d, p[0], Put(Child(d, p[0]), p[1..], v).value);
    }
  }

  /** What is present at a diverging path stays; what is absent still appears as null, unless an array
      got longer. */
  lemma {:induction false} PutElsewhere(d: Json, p: Path, v: Json, q: Path)
    requires Put(d, p, v).Ok? && Diverge(p, q)
    ensures Get(d, q).Some? ==> Get(Put(d, p, v).value, q) == Get(d, q)
    ensures !Appends(d, p) ==> At(Put(d, p, v).value, q) == At(d, q)
    decreases |p|
  {
    var child := Put(Child(d, p[0]), p[1..], v).value;
    var e := Stepped(d, p[0], child);
    AtStep(d, q);
    AtStep(e, q);
    if p[0] == q[0] {
      PutElsewhere(Child(d, p[0]), p[1..], v, q[1..]);
      if !AppendsAt(d, p[0]) {
        StepThere(d, p[0], child);
      }
    } else {
      StepElsewhere(d, p[0], child, q[0]);
    }
  }

  /** Where a path that does not append goes stays such a place. */
  lemma {:induction false} PutKeepsPlaces(d: Json, p: Path, v: Json, q: Path)
    requires Put(d, p, v).Ok? && Diverge(p, q) && !Appends(d, p) && !Appends(d, q)
    ensures !Appends(Put(d, p, v).value, q)
    decreases |p|
  {
    var child := Put(Child(d, p[0]), p[1..], v).value;
    if p[0] == q[0] {
      PutKeepsPlaces(Child(d, p[0]), p[1..], v, q[1..]);
      StepThere(d, p[0], child);
    } else {
      StepElsewhere(d, p[0], child, q[0]);
    }
  }

  /** No array is on the way, and none is created. */
  predicate Straight(d: Json, p: Path)
    decreases |p|
  {
    p == [] || ((d.Obj? || (d.Null? && !ArrayToken(p[0]))) && Straight(Child(d, p[0]), p[1..]))
  }

  /** Then nothing at all changes at a diverging path, present or absent, and no array comes in its way. */
  lemma {:induction false} PutStraight(d: Json, p: Path, v: Json, q: Path)
    requires Put(d, p, v).Ok? && Diverge(p, q) && Straight(d, p)
    ensures Get(Put(d, p, v).value, q) == Get(d, q)
    ensures Straight(d, q) ==> Straight(Put(d, p, v).value, q)
    decreases |p|
  {
    if p[0] == q[0] {
      PutStraight(Child(d, p[0]), p[1..], v, q[1..]);
      if !Has(d, p[0]) {
        assert q[1..] != [] && !Has(Null, q[1..][0]);
      }
    }
  }

  /** Putting back what is there changes nothing. */
  lemma {:induction false} PutSame(d: Json, p: Path, v: Json)
    requires Get(d, p) == Some(v)
    ensures Put(d, p, v) == Ok(d) && !Appends(d, p)
    decreases |p|
  {
    if p != [] {
      PutSame(Child(d, p[0]), p[1..], v);
      StepSame(d, p[0]);
    }
  }

  lemma {:induction false} PutTwice(d: Json, p: Path, v: Json, w: Json)
    requires Put(d, p, v).Ok? && !Appends(d, p)
    ensures Put(Put(d, p, v).value, p, w) == Put(d, p, w)
    decreases |p|
  {
    if p != [] {
      PutTwice(Child(d, p[0]), p[1..], v, w);
      PutAnyValue(Child(d, p[0]), p[1..], v, w);
      var c := Put(Child(d, p[0]), p[1..], v).value;
      var r := Put(Child(d, p[0]), p[1..], w).value;
      StepThere(d, p[0], c);
      StepTwice(d, p[0], c, r);
    }
  }

  // Whether a Put succeeds depends on the way there only.
  lemma {:induction false} PutAnyValue(d: Json, p: Path, v: Json, w: Json)
    ensures Put(d, p, v).Ok? <==> Put(d, p, w).Ok?
    decreases |p|
  {
    if p != [] {
      PutAnyValue(Child(d, p[0]), p[1..], v, w);
    }
  }

  lemma WordStep(d: Json, a: string, b: string)
    requires CanStep(d, a) && !ArrayToken(a) && !ArrayToken(b)
    ensures d.Obj? || d.Null?
    ensures CanStep(d, b)
  {
  }

  // If a member can be reached, so can another member of the same object.
  lemma {:induction false} SiblingsAlike(d: Json, p: Path, a: string, b: string, v: Json, w: Json)
    requires Put(d, p + [a], v).Ok? && !ArrayToken(a) && !ArrayToken(b)
    ensures Put(d, p + [b], w).Ok?
    decreases |p|
  {
    if p == [] {
      assert (p + [a])[1..] == [] && (p + [b])[1..] == [];
      WordStep(d, a, b);
    } else {
      assert (p + [a])[1..] == p[1..] + [a] && (p + [b])[1..] == p[1..] + [b];
      SiblingsAlike(Child(d, p[0]), p[1..], a, b, v, w);
    }
  }

  /** And it still can when the first has been assigned, even if that added elements to arrays. */
  lemma {:induction false} PutSibling(d: Json, p: Path, a: string, b: string, v: Json, w: Json)
    requires Put(d, p + [a], v).Ok? && !ArrayToken(a) && !ArrayToken(b)
    ensures Put(Put(d, p + [a], v).value, p + [b], w).Ok?
    decreases |p|
  {
    if p == [] {
      assert (p + [a])[1..] == [] && (p + [b])[1..] == [];
      WordStep(d, a, b);
    } else {
      assert (p + [a])[1..] == p[1..] + [a] && (p + [b])[1..] == p[1..] + [b];
      var child := Put(Child(d, p[0]), p[1..] + [a], v).value;
      if AppendsAt(d, p[0]) {
        DashIsNoIndex();
        SiblingsAlike(Child(d, p[0]), p[1..], a, b, v, w);
      } else {
        PutSibling(Child(d, p[0]), p[1..], a, b, v, w);
        StepThere(d, p[0], child);
      }
    }
  }

  // Below the root a Put sees only the member it goes through.
  lemma PutThroughMember(d: Json, e: Json, p: Path, v: Json)
    requires d.Obj? && e.Obj? && p != [] && Member(d, p[0]) == Member(e, p[0])
    ensures Put(d, p, v).Ok? <==> Put(e, p, v).Ok?
    ensures Appends(d, p) <==> Appends(e, p)
  {
    assert Child(d, p[0]) == Child(e, p[0]);
  }

  predicate Scalar(v: Json) {
    v.Bool? || v.Num? || v.Str?
  }

  /** A scalar blocks every path through it, so a Put that succeeds beside, below or above a scalar either
      leaves it alone or replaces it together with everything under `p`. */
  lemma {:induction false} ScalarBlocks(d: Json, p: Path, v: Json, q: Path)
    requires Put(d, p, v).Ok? && Get(d, q).Some? && Scalar(Get(d, q).value)
    ensures Diverge(p, q) || p <= q
    decreases |p|
  {
    if p != [] && q != [] && p[0] == q[0] {
      ScalarBlocks(Child(d, p[0]), p[1..], v, q[1..]);
      if p[1..] <= q[1..] {
        assert p == [p[0]] + p[1..] && q == [q[0]] + q[1..];
      }
    }
  }

  lemma {:induction false} GetThrough(d: Json, p: Path, rest: Path)
    ensures Get(d, p + rest) == (if Get(d, p).Some? then Get(Get(d, p).value, rest) else None)
    decreases |p|
  {
    if p == [] {
      assert p + rest == rest;
    } else {
      assert (p + rest)[1..] == p[1..] + rest;
      if Has(d, p[0]) {
        GetThrough(Child(d, p[0]), p[1..], rest);
      }
    }
  }

  lemma PutStep(d: Json, t: string, rest: Path, v: Json)
    ensures Put(d, [t] + rest, v) ==
            if CanStep(d, t) && Put(Child(d, t), rest, v).Ok? then Ok(Stepped(d, t, Put(Child(d, t), rest, v).value))
            else Thrown
  {
    assert ([t] + rest)[1..] == rest;
  }

  lemma PutKey(d: Json, t: string, v: Json)
    ensures Put(d, [t], v) == if CanStep(d, t) then Ok(Stepped(d, t, v)) else Thrown
  {
    assert [t] + [] == [t];
    PutStep(d, t, [], v);
  }

  lemma Tokens()
    ensures IsIndex("0") && Decimal("0") == 0 && IsIndex("2") && Decimal("2") == 2
    ensures !IsIndex("") && !IsIndex("02") && !IsIndex("-") && !IsIndex("a") && !ArrayToken("a") && ArrayToken("02")
  {
    assert IndexText(0) == "0" && IndexText(2) == "2";
    IndexRoundTrip(0);
    IndexRoundTrip(2);
    DashIsNoIndex();
    assert "02"[0] == '0' && |"02"| == 2 && "a"[0] == 'a';
  }

  /** How an assignment steps through nulls and arrays. */
  lemma PutIntoNull(v: Json)
    ensures Put(Null, ["a"], v) == Ok(Obj(map["a" := v]))
    ensures Put(Null, ["0"], v) == Ok(Arr([v])) && Put(Null, ["-"], v) == Ok(Arr([v]))
    ensures Put(Null, [""], v) == Thrown && Put(Null, ["02"], v) == Thrown
  {
    Tokens();
    PutKey(Null, "a", v);
    PutKey(Null, "0", v);
    PutKey(Null, "-", v);
    PutKey(Null, "", v);
    PutKey(Null, "02", v);
    var none: seq<Json> := [];
    assert none + seq(0, _ => Null) + [v] == [v] && none + [v] == [v];
  }

  lemma PutIntoArray(x: Json, v: Json)
    ensures Put(Arr([x]), ["0"], v) == Ok(Arr([v])) && Put(Arr([x]), ["-"], v) == Ok(Arr([x, v]))
    ensures Put(Arr([x]), ["2"], v) == Ok(Arr([x, Null, v]))
    ensures Put(Arr([x]), ["a"], v) == Thrown && Put(Arr([x]), ["02"], v) == Thrown
    ensures Scalar(x) ==> Put(x, ["a"], v) == Thrown && Put(x, ["0"], v) == Thrown
  {
    Tokens();
    PutKey(Arr([x]), "0", v);
    PutKey(Arr([x]), "-", v);
    PutKey(Arr([x]), "2", v);
    PutKey(Arr([x]), "a", v);
    PutKey(Arr([x]), "02", v);
    PutKey(x, "a", v);
    PutKey(x, "0", v);
    assert [x] + [v] == [x, v];
    assert [x] + seq(1, _ => Null) + [v] == [x, Null, v] && [x][0 := v] == [v];
    assert Stepped(Arr([x]), "2", v) == Arr(SetAt([x], 2, v)) && SetAt([x], 2, v) == [x, Null, v];
    assert Stepped(Arr([x]), "0", v) == Arr(SetAt([x], 0, v)) && SetAt([x], 0, v) == [v];
  }

  // ---------------------------------------------------------------- pointers that append

  lemma {:induction false} AppendsThrough(d: Json, p: Path, rest: Path)
    requires Appends(d, p)
    ensures Appends(d, p + rest) && Get(d, p + rest) == None
    decreases |p|
  {
    assert (p + rest)[1..] == p[1..] + rest && (p + rest)[0] == p[0];
    DashIsNoIndex();
    if !AppendsAt(d, p[0]) {
      AppendsThrough(Child(d, p[0]), p[1..], rest);
    }
  }

  lemma {:induction false} AppendsBefore(d: Json, p: Path, last: string)
    requires last != "-"
    ensures Appends(d, p + [last]) <==> Appends(d, p)
    decreases |p|
  {
    if p == [] {
      assert (p + [last])[1..] == [];
    } else {
      assert (p + [last])[1..] == p[1..] + [last];
      AppendsBefore(Child(d, p[0]), p[1..], last);
    }
  }

  /** The length of the array that grows. */
  function GrowingLength(d: Json, p: Path): nat
    requires Appends(d, p)
    decreases |p|
  {
    if AppendsAt(d, p[0]) then (if d.Arr? then |d.items| else 0)
    else GrowingLength(Child(d, p[0]), p[1..])
  }

  /** Every assignment through such a pointer adds one element, and the next one adds another. */
  lemma {:induction false} PutGrows(d: Json, p: Path, rest: Path, v: Json)
    requires Appends(d, p) && Put(d, p + rest, v).Ok?
    ensures var e := Put(d, p + rest, v).value;
            Appends(e, p) && GrowingLength(e, p) == GrowingLength(d, p) + 1
    decreases |p|
  {
    assert (p + rest)[1..] == p[1..] + rest;
    if !AppendsAt(d, p[0]) {
      PutGrows(Child(d, p[0]), p[1..], rest, v);
      StepThere(d, p[0], Put(Child(d, p[0]), p[1..] + rest, v).value);
    }
  }

  // ---------------------------------------------------------------- Merge Patch (RFC 7396, section 2)

  function MergePatch(target: Json, patch: Json): Json
    decreases patch
  {
    if !patch.Obj? then patch else
    var fields := if target.Obj? then target.fields else map[];
    Obj(map k | k in fields.Keys + patch.fields.Keys && !(k in patch.fields && patch.fields[k].Null?)
        :: if k in patch.fields then MergePatch(Member(target, k), patch.fields[k]) else fields[k])
  }

  /** Member by member: null in the patch removes, any other member is merged in, the rest stays; a patch that
      is no object replaces everything. */
  lemma MergePatchMeaning(target: Json, patch: Json, k: string)
    ensures patch.Obj? ==>
              var m := MergePatch(target, patch);
              && m.Obj?
              && (k in m.fields <==> if k in patch.fields then !patch.fields[k].Null? else Contains(target, k))
              && (k in m.fields ==>
                    m.fields[k] == if k in patch.fields then MergePatch(Member(target, k), patch.fields[k])
                                   else target.fields[k])
    ensures !patch.Obj? ==> MergePatch(target, patch) == patch
  {
    if patch.Obj? {
      var fields := if target.Obj? then target.fields else map[];
      assert k in fields.Keys + patch.fields.Keys <==> k in patch.fields || Contains(target, k);
    }
  }

  predicate Contains(d: Json, key: string) {
    d.Obj? && key in d.fields
  }
}
