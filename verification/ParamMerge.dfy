/** The rewriting rule that merges a function's parameter names with its table of parameter metadata. */
module ParamMerge {
  import opened Wrappers
  import opened Literals
  import opened LiteralRoundTrip

  /** A Python dict from parameter names to fields, in the order of insertion.  A positional entry has key None. */
  type Key = Option<string>
  type Dict = seq<(Key, seq<Field>)>

  function Put(d: Dict, k: Key, v: seq<Field>): Dict {
    if d == [] then [(k, v)] else if d[0].0 == k then [(k, v)] + d[1..] else [d[0]] + Put(d[1..], k, v)
  }

  function Lookup(d: Dict, k: Key): seq<Field> {
    if d == [] then [] else if d[0].0 == k then d[0].1 else Lookup(d[1..], k)
  }

  function Without(d: Dict, k: Key): Dict {
    if d == [] then [] else if d[0].0 == k then Without(d[1..], k) else [d[0]] + Without(d[1..], k)
  }

  /** What is left when the entries of these names have been popped. */
  function Rest(d: Dict, names: seq<string>): Dict {
    if d == [] then []
    else if d[0].0.Some? && d[0].0.value in names then Rest(d[1..], names)
    else [d[0]] + Rest(d[1..], names)
  }

  function Quotes(s: string): string { "\"" + (s + "\"") }

  function StripLeft(s: string): string { if s != "" && s[0] == '"' then StripLeft(s[1..]) else s }

  function StripRight(s: string): string { if s != "" && s[|s| - 1] == '"' then StripRight(s[..|s| - 1]) else s }

  function StripQuotes(s: string): string { StripRight(StripLeft(s)) }

  /** A slice literal takes an ampersand. */
  function SliceOf(v: Node): Node {
    match v
    case Obj(_, _) => Expr("&" + Emit(v, 0))
    case Str(text) => Expr("&.{" + (text + "}"))
    case Expr(_) => v
  }

  function MetaField(f: Field): Field {
    if f.key == Some("written") && f.value == Expr(".@\"return\"") then Field(f.key, Expr(".result"), f.comments)
    else if f.key == Some("flatten") then Field(f.key, SliceOf(f.value), f.comments)
    else if f.key == Some("userdata") && f.value.Str? then
      Field(f.key, Expr(".{ .param = " + (f.value.text + " }")), f.comments)
    else Field(f.key, f.value, f.comments)
  }

  function MetaFields(fs: seq<Field>): seq<Field> { seq(|fs|, i requires 0 <= i < |fs| => MetaField(fs[i])) }

  function DictOf(meta: seq<Field>): Dict
    requires forall f | f in meta :: f.value.Obj?
  {
    if meta == [] then []
    else
      var n := |meta| - 1;
      Put(DictOf(meta[..n]), meta[n].key, MetaFields(meta[n].value.fields))
  }

  function NameOf(p: Node): string
    requires !p.Obj?
  {
    StripQuotes(p.text)
  }

  function NameField(v: Node): Field { Field(Some("name"), v, []) }

  function KeyName(k: Key): string { if k.Some? then k.value else "None" }

  // ----- what the merge gives -----

  function Names(params: seq<Node>): seq<string>
    requires forall p | p in params :: !p.Obj?
  {
    seq(|params|, i requires 0 <= i < |params| => NameOf(params[i]))
  }

  /** The metadata that parameter i takes: that of its name, unless an earlier parameter has the name. */
  function Taken(d: Dict, names: seq<string>, i: nat): seq<Field>
    requires i < |names|
  {
    if names[i] in names[..i] then [] else Lookup(d, Some(names[i]))
  }

  function Merged(d: Dict, params: seq<Node>): seq<seq<Field>>
    requires forall p | p in params :: !p.Obj?
  {
    seq(|params|, i requires 0 <= i < |params| => [NameField(params[i])] + Taken(d, Names(params), i))
  }

  /** Metadata that no parameter took, each under a name of its own. */
  function Orphans(d: Dict): seq<seq<Field>> {
    seq(|d|, i requires 0 <= i < |d| => [NameField(Str(Quotes(KeyName(d[i].0))))] + d[i].1)
  }

  lemma {:induction false} RestLookup(d: Dict, names: seq<string>, name: string)
    ensures Lookup(Rest(d, names), Some(name)) == if name in names then [] else Lookup(d, Some(name))
  {
    if d != [] {
      RestLookup(d[1..], names, name);
      assert ([d[0]] + Rest(d[1..], names))[1..] == Rest(d[1..], names);
    }
  }

  lemma {:induction false} RestNext(d: Dict, names: seq<string>, name: string)
    ensures Without(Rest(d, names), Some(name)) == Rest(d, names + [name])
  {
    if d != [] {
      RestNext(d[1..], names, name);
      assert ([d[0]] + Rest(d[1..], names))[1..] == Rest(d[1..], names);
    }
  }

  lemma {:induction false} RestNone(d: Dict)
    ensures Rest(d, []) == d
  {
    if d != [] { RestNone(d[1..]); }
  }

  /** The loops of the rule: fill the dict, pop one entry for each parameter, append what is left. */
  method MergeParams(params: seq<Node>, meta: seq<Field>) returns (r: Option<seq<seq<Field>>>)
    ensures r.Some? <==> (forall f | f in meta :: f.value.Obj?) && (forall p | p in params :: !p.Obj?)
    ensures r.Some? ==> r.value == Merged(DictOf(meta), params) + Orphans(Rest(DictOf(meta), Names(params)))
    ensures r.Some? ==>
              && |params| <= |r.value|
              && (forall i | 0 <= i < |params| :: Takes(params, meta, i, r.value[i]))
              && (forall i | |params| <= i < |r.value| :: IsOrphan(params, meta, r.value[i]))
  {
    var byName := FillDict(meta);
    if byName.None? { return None; }
    var items, left := TakeAll(params, byName.value);
    if items.None? { return None; }
    var all := items.value;
    for i := 0 to |left|
      invariant all == items.value + Orphans(left)[..i]
    {
      all := all + [[NameField(Str(Quotes(KeyName(left[i].0))))] + left[i].1];
    }
    assert Orphans(left)[..|left|] == Orphans(left);
    forall i | 0 <= i < |params| ensures Takes(params, meta, i, all[i]) { MergedTakes(params, meta, i); }
    forall i | |params| <= i < |all| ensures IsOrphan(params, meta, all[i]) {
      RestOrphaned(params, meta, i - |params|);
      assert Orphaned(params, meta, left[i - |params|].0, all[i]);
    }
    return Some(all);
  }

  // ----- where the entries come from, and how their fields are rewritten -----

  /** Whatever text follows, the parser reads this one as v. */
  ghost predicate ReadsAs(text: string, v: Node) { forall s: string :: Value(text + s) == Done(v, s) }

  /** A value the printer and the parser agree on, as in every text that was printed. */
  ghost predicate Sound(v: Node) { exists d: nat :: Wf(v, d) }

  /** A slice, as the parser gives it back: of the literal itself, or of one string. */
  function Slice(v: Node): Node {
    Expr("&" + Emit(Normal(if v.Obj? then v else Obj([Field(None, v, [])], false)), 0))
  }

  /** The literal with the one field `param`. */
  function ParamOf(v: Node): Node { Normal(Obj([Field(Some("param"), v, [])], false)) }

  /** g is what the rule makes of f: the same key and comments; the one value of `written` that changes; a slice
      for `flatten`, and a literal around the string for `userdata`, as the parser reads their texts; any
      other value as it was. */
  ghost predicate Rewritten(f: Field, g: Field) {
    && g.key == f.key && g.comments == f.comments
    && if f.key == Some("written") && f.value == Expr(".@\"return\"") then g.value == Expr(".result")
       else if f.key == Some("flatten") && !f.value.Expr? then
         g.value.Expr? && (Sound(f.value) ==> ReadsAs(g.value.text, Slice(f.value)))
       else if f.key == Some("userdata") && f.value.Str? then
         g.value.Expr? && (Sound(f.value) ==> ReadsAs(g.value.text, ParamOf(f.value)))
       else g.value == f.value
  }

  ghost predicate AllRewritten(fs: seq<Field>, gs: seq<Field>) {
    |fs| == |gs| && forall i | 0 <= i < |fs| :: Rewritten(fs[i], gs[i])
  }

  predicate LastOf(meta: seq<Field>, j: nat, k: Key) {
    j < |meta| && meta[j].key == k && forall i | j < i < |meta| :: meta[i].key != k
  }

  /** gs are the rewritten fields of the last entry of key k, and nothing when there is no entry of that key. */
  ghost predicate From(meta: seq<Field>, k: Key, gs: seq<Field>) {
    if HasKey(meta, k) then
      exists j: nat :: LastOf(meta, j, k) && meta[j].value.Obj? && AllRewritten(meta[j].value.fields, gs)
    else gs == []
  }

  lemma SliceReads(v: Node, d: nat, s: string)
    requires v.Obj? && Wf(v, d)
    ensures Value(("&" + Emit(v, 0)) + s) == Done(Slice(v), s)
  {
    var e := Emit(v, 0);
    ObjectRoundTrip(v, d, 0, s);
    assert StartsWith(e, ".{");
    Cut(e, s);
    AmpersandReads(e + s, Normal(v), s);
    Assoc3("&", e, s);
  }

  lemma StringReads(text: string, s: string)
    requires WfStr(text)
    ensures Fields(text + ("}" + s)) == Done([Field(None, Str(text), [])], s)
  {
    var t := text + ("}" + s);
    StrRound(text, "}" + s);
    FieldsEnd(s);
    Cut("}", s);
    assert t[0] == '"';
    assert SkipWs("}" + s) == ([], "}" + s);
    assert [Field(None, Str(text), [])] + [] == [Field(None, Str(text), [])];
  }

  lemma NormalOne(key: Key, text: string)
    requires key.Some? ==> '\n' !in key.value
    ensures Normal(Obj([Field(key, Str(text), [])], false)) == Obj([Field(key, Str(text), [])], '\n' in text)
  {
    var f := Field(key, Str(text), []);
    assert [f][1..] == [];
    assert NormalAll([f]) == [f] + NormalAll([f][1..]);
    assert BreaksAny([f]) <==> '\n' in text || BreaksAny([f][1..]);
    assert Commented([f]) <==> Commented([f][1..]);
  }

  lemma ObjectReads(body: string, fs: seq<Field>, s: string)
    requires Fields(body + s) == Done(fs, s)
    ensures Object(".{" + (body + s)) == Done(Obj(fs, '\n' in body), s)
  {
    var all := ".{" + (body + s);
    Cut(".{", body + s);
    Assoc3(".{", body, s);
    Cut(".{" + body, s);
    assert all[..|all| - |s|] == ".{" + body;
  }

  lemma StringObjectReads(text: string, s: string)
    requires WfStr(text)
    ensures Object(".{" + (text + ("}" + s))) == Done(Obj([Field(None, Str(text), [])], '\n' in text), s)
  {
    StringReads(text, s);
    Assoc3(text, "}", s);
    ObjectReads(text + "}", [Field(None, Str(text), [])], s);
  }

  lemma AmpersandReads(e: string, o: Node, s: string)
    requires StartsWith(e, ".{") && Object(e) == Done(o, s)
    ensures Value("&" + e) == Done(Expr("&" + Emit(o, 0)), s)
  {
    Cut("&", e);
    var t := "&" + e;
    assert t[0] == '&' && t[1] == e[0] && t[2] == e[1];
  }

  lemma StringSliceReads(text: string, s: string)
    requires WfStr(text)
    ensures Value(("&.{" + (text + "}")) + s) == Done(Slice(Str(text)), s)
  {
    StringObjectReads(text, s);
    NormalOne(None, text);
    AmpersandReads(".{" + (text + ("}" + s)), Obj([Field(None, Str(text), [])], '\n' in text), s);
    Assoc3(text, "}", s);
    Ampersand(text + "}", s);
  }

  lemma Ampersand(x: string, s: string)
    ensures ("&.{" + x) + s == "&" + (".{" + (x + s))
  {}

  lemma ParamIsKey()
    ensures WfKey("param")
  {
    assert IdentLength("") == 0 && "m"[1..] == "" && "am"[1..] == "m" && "ram"[1..] == "am" && "aram"[1..] == "ram";
    assert IdentLength("m") == 1;
    assert IdentLength("am") == 2;
    assert IdentLength("ram") == 3;
    assert "param"[1..] == "aram";
  }

  lemma ParamReads(text: string, s: string)
    requires WfStr(text)
    ensures Value((".{ .param = " + (text + " }")) + s) == Done(ParamOf(Str(text)), s)
  {
    var node := Obj([Field(Some("param"), Str(text), [])], false);
    ParamWf(text);
    ObjectRoundTrip(node, 0, 0, s);
    ParamText(text);
    Cut(Emit(node, 0), s);
    assert StartsWith(Emit(node, 0), ".{");
  }

  lemma ParamWf(text: string)
    requires WfStr(text)
    ensures Wf(Obj([Field(Some("param"), Str(text), [])], false), 0)
  {
    var f := Field(Some("param"), Str(text), []);
    ParamIsKey();
    assert WfHead(f) && Wf(f.value, 0);
    assert [f][1..] == [] && WfAll([f][1..], 0);
  }

  lemma ParamText(text: string)
    ensures Emit(Obj([Field(Some("param"), Str(text), [])], false), 0) == ".{ .param = " + (text + " }")
  {
    var f := Field(Some("param"), Str(text), []);
    assert [f][1..] == [] && !Commented([f]);
    assert Row([f], 0) == ".param = " + (text + "") && text + "" == text;
    assert ".{ " + ((".param = " + text) + " }") == ".{ .param = " + (text + " }");
  }

  lemma FlattenRewritten(v: Node)
    requires Sound(v) && !v.Expr?
    ensures SliceOf(v).Expr? && ReadsAs(SliceOf(v).text, Slice(v))
  {
    var d: nat :| Wf(v, d);
    forall s: string ensures Value(SliceOf(v).text + s) == Done(Slice(v), s) {
      if v.Obj? { SliceReads(v, d, s); } else { StringSliceReads(v.text, s); }
    }
  }

  lemma UserdataRewritten(v: Node)
    requires Sound(v) && v.Str?
    ensures ReadsAs(".{ .param = " + (v.text + " }"), ParamOf(v))
  {
    forall s: string ensures Value((".{ .param = " + (v.text + " }")) + s) == Done(ParamOf(v), s) {
      ParamReads(v.text, s);
    }
  }

  lemma FieldRewritten(f: Field)
    ensures Rewritten(f, MetaField(f))
  {
    if f.key == Some("flatten") && !f.value.Expr? && Sound(f.value) { FlattenRewritten(f.value); }
    if f.key == Some("userdata") && f.value.Str? && Sound(f.value) { UserdataRewritten(f.value); }
  }

  lemma FieldsRewritten(fs: seq<Field>)
    ensures AllRewritten(fs, MetaFields(fs))
  {
    forall i | 0 <= i < |fs| ensures Rewritten(fs[i], MetaFields(fs)[i]) { FieldRewritten(fs[i]); }
  }

  lemma {:induction false} LookupNone(d: Dict, k: Key)
    requires Count(d, k) == 0
    ensures Lookup(d, k) == []
  {
    if d != [] { LookupNone(d[1..], k); }
  }

  /** The dict holds, under each key, the rewritten fields of the last entry. */
  lemma {:induction false} LookupFrom(meta: seq<Field>, k: Key)
    requires forall f | f in meta :: f.value.Obj?
    ensures From(meta, k, Lookup(DictOf(meta), k))
  {
    DictCount(meta, k);
    if HasKey(meta, k) {
      var j := LastIndex(meta, k);
      LastEntryWins(meta, j);
      FieldsRewritten(meta[j].value.fields);
      assert LastOf(meta, j, k) && meta[j] in meta;
    } else {
      LookupNone(DictOf(meta), k);
    }
  }

  lemma {:induction false} LastIndex(meta: seq<Field>, k: Key) returns (j: nat)
    requires HasKey(meta, k)
    ensures LastOf(meta, j, k)
    decreases |meta|
  {
    var n := |meta| - 1;
    if meta[n].key == k {
      j := n;
    } else {
      assert meta == meta[..n] + [meta[n]];
      j := LastIndex(meta[..n], k);
    }
  }

  /** What the merge returns for parameter i: its name, and the metadata of that name, which the first parameter
      of the name takes. */
  ghost predicate Takes(params: seq<Node>, meta: seq<Field>, i: nat, item: seq<Field>)
    requires i < |params| && forall p | p in params :: !p.Obj?
  {
    && item != [] && item[0] == Field(Some("name"), params[i], [])
    && var name := NameOf(params[i]);
       if exists j | 0 <= j < i :: NameOf(params[j]) == name then item[1..] == [] else From(meta, Some(name), item[1..])
  }

  /** And for metadata that no parameter is named after. */
  ghost predicate Orphaned(params: seq<Node>, meta: seq<Field>, k: Key, item: seq<Field>)
    requires forall p | p in params :: !p.Obj?
  {
    && HasKey(meta, k) && (forall p | p in params :: k != Some(NameOf(p)))
    && item != [] && item[0] == Field(Some("name"), Str("\"" + (KeyName(k) + "\"")), [])
    && From(meta, k, item[1..])
  }

  ghost predicate IsOrphan(params: seq<Node>, meta: seq<Field>, item: seq<Field>)
    requires forall p | p in params :: !p.Obj?
  {
    exists k :: Orphaned(params, meta, k, item)
  }

  lemma MergedTakes(params: seq<Node>, meta: seq<Field>, i: nat)
    requires (forall f | f in meta :: f.value.Obj?) && (forall p | p in params :: !p.Obj?) && i < |params|
    ensures Takes(params, meta, i, Merged(DictOf(meta), params)[i])
  {
    var names, name := Names(params), NameOf(params[i]);
    LookupFrom(meta, Some(name));
    assert name in names[..i] <==> exists j | 0 <= j < i :: NameOf(params[j]) == name by {
      assert forall j | 0 <= j < i :: names[..i][j] == NameOf(params[j]);
    }
    assert Merged(DictOf(meta), params)[i][1..] == Taken(DictOf(meta), names, i);
  }

  lemma {:induction false} RestAt(d: Dict, names: seq<string>, i: nat)
    requires i < |Rest(d, names)| && forall k :: Count(d, k) <= 1
    ensures var (k, v) := Rest(d, names)[i];
            Count(d, k) == 1 && Lookup(d, k) == v && (k.Some? ==> k.value !in names)
  {
    assert forall k :: Count(d[1..], k) <= Count(d, k);
    if d[0].0.Some? && d[0].0.value in names {
      RestAt(d[1..], names, i);
    } else if i > 0 {
      assert ([d[0]] + Rest(d[1..], names))[i] == Rest(d[1..], names)[i - 1];
      RestAt(d[1..], names, i - 1);
    }
  }

  lemma RestOrphaned(params: seq<Node>, meta: seq<Field>, i: nat)
    requires (forall f | f in meta :: f.value.Obj?) && (forall p | p in params :: !p.Obj?)
    requires i < |Rest(DictOf(meta), Names(params))|
    ensures var left := Rest(DictOf(meta), Names(params));
            Orphaned(params, meta, left[i].0, Orphans(left)[i])
  {
    var left := Rest(DictOf(meta), Names(params));
    var k := left[i].0;
    forall j ensures Count(DictOf(meta), j) <= 1 { DictCount(meta, j); }
    RestAt(DictOf(meta), Names(params), i);
    DictCount(meta, k);
    LookupFrom(meta, k);
    forall p | p in params ensures k != Some(NameOf(p)) {
      var n :| 0 <= n < |params| && params[n] == p;
      assert Names(params)[n] == NameOf(p);
    }
    assert Orphans(left)[i][1..] == left[i].1;
  }

  method FillDict(meta: seq<Field>) returns (d: Option<Dict>)
    ensures d.Some? <==> forall f | f in meta :: f.value.Obj?
    ensures d.Some? ==> d.value == DictOf(meta)
  {
    var byName: Dict := [];
    for i := 0 to |meta|
      invariant forall f | f in meta[..i] :: f.value.Obj?
      invariant byName == DictOf(meta[..i])
    {
      if !meta[i].value.Obj? { return None; }
      assert meta[..i + 1][..i] == meta[..i];
      byName := Put(byName, meta[i].key, MetaFields(meta[i].value.fields));
    }
    assert meta[..|meta|] == meta;
    return Some(byName);
  }

  method TakeAll(params: seq<Node>, d: Dict) returns (items: Option<seq<seq<Field>>>, left: Dict)
    ensures items.Some? <==> forall p | p in params :: !p.Obj?
    ensures items.Some? ==> items.value == Merged(d, params) && left == Rest(d, Names(params))
  {
    var done: seq<seq<Field>> := [];
    left := d;
    RestNone(d);
    for i := 0 to |params|
      invariant forall p | p in params[..i] :: !p.Obj?
      invariant done == Merged(d, params[..i]) && left == Rest(d, Names(params[..i]))
    {
      if params[i].Obj? { return None, left; }
      var name := NameOf(params[i]);
      MergedNext(d, params, i);
      RestLookup(d, Names(params[..i]), name);
      RestNext(d, Names(params[..i]), name);
      done := done + [[NameField(params[i])] + Lookup(left, Some(name))];
      left := Without(left, Some(name));
    }
    assert params[..|params|] == params;
    return Some(done), left;
  }

  lemma MergedNext(d: Dict, params: seq<Node>, i: nat)
    requires i < |params| && forall p | p in params[..i + 1] :: !p.Obj?
    ensures Names(params[..i + 1]) == Names(params[..i]) + [NameOf(params[i])]
    ensures var name := NameOf(params[i]);
            Merged(d, params[..i + 1]) == Merged(d, params[..i])
              + [[NameField(params[i])] + if name in Names(params[..i]) then [] else Lookup(d, Some(name))]
  {
    var before, after := params[..i], params[..i + 1];
    assert after[i] == params[i] && forall j | 0 <= j < i :: after[j] == before[j];
    assert Names(after)[..i] == Names(before);
    forall j | 0 <= j < i ensures Taken(d, Names(after), j) == Taken(d, Names(before), j) {
      assert Names(after)[..j] == Names(before)[..j];
    }
  }

  // ----- nothing is lost, nothing is doubled -----

  /** How many of the first n parameters take the entry of name k. */
  function Takers(names: seq<string>, n: nat, k: string): nat
    requires n <= |names|
  {
    if n == 0 then 0 else Takers(names, n - 1, k) + if names[n - 1] == k && k !in names[..n - 1] then 1 else 0
  }

  function Count(d: Dict, k: Key): nat {
    if d == [] then 0 else (if d[0].0 == k then 1 else 0) + Count(d[1..], k)
  }

  lemma {:induction false} TakersIs(names: seq<string>, n: nat, k: string)
    requires n <= |names|
    ensures Takers(names, n, k) == if k in names[..n] then 1 else 0
  {
    if n > 0 {
      TakersIs(names, n - 1, k);
      assert names[..n] == names[..n - 1] + [names[n - 1]];
    }
  }

  lemma {:induction false} RestCount(d: Dict, names: seq<string>, k: Key)
    ensures Count(Rest(d, names), k) == if k.Some? && k.value in names then 0 else Count(d, k)
  {
    if d != [] {
      RestCount(d[1..], names, k);
      assert ([d[0]] + Rest(d[1..], names))[1..] == Rest(d[1..], names);
    }
  }

  lemma {:induction false} PutCount(d: Dict, k: Key, v: seq<Field>, j: Key)
    requires Count(d, k) <= 1
    ensures Count(Put(d, k, v), j) == if j == k then 1 else Count(d, j)
    ensures Lookup(Put(d, k, v), j) == if j == k then v else Lookup(d, j)
  {
    if d != [] {
      if d[0].0 == k {
        assert ([(k, v)] + d[1..])[1..] == d[1..];
      } else {
        PutCount(d[1..], k, v, j);
      }
    }
  }

  predicate HasKey(meta: seq<Field>, k: Key) { exists f | f in meta :: f.key == k }

  lemma {:induction false} DictCount(meta: seq<Field>, k: Key)
    requires forall f | f in meta :: f.value.Obj?
    ensures Count(DictOf(meta), k) == if HasKey(meta, k) then 1 else 0
  {
    if meta != [] {
      var n := |meta| - 1;
      DictCount(meta[..n], k);
      DictCount(meta[..n], meta[n].key);
      PutCount(DictOf(meta[..n]), meta[n].key, MetaFields(meta[n].value.fields), k);
      assert meta == meta[..n] + [meta[n]];
      assert meta[n] in meta;
    }
  }

  /** The last entry of a key is the one that counts. */
  lemma {:induction false} LastEntryWins(meta: seq<Field>, i: nat)
    requires i < |meta| && (forall f | f in meta :: f.value.Obj?) && forall j | i < j < |meta| :: meta[j].key != meta[i].key
    ensures Lookup(DictOf(meta), meta[i].key) == MetaFields(meta[i].value.fields)
    decreases |meta|
  {
    var n := |meta| - 1;
    DictCount(meta[..n], meta[n].key);
    PutCount(DictOf(meta[..n]), meta[n].key, MetaFields(meta[n].value.fields), meta[i].key);
    if i < n { LastEntryWins(meta[..n], i); }
  }

  /** Every key of the metadata ends up in exactly one place: the first parameter of that name, or, when there
      is none, one orphan. */
  lemma EveryEntryOnce(params: seq<Node>, meta: seq<Field>, k: Key)
    requires (forall f | f in meta :: f.value.Obj?) && (forall p | p in params :: !p.Obj?) && HasKey(meta, k)
    ensures var names := Names(params);
            (if k.Some? then Takers(names, |names|, k.value) else 0) + Count(Rest(DictOf(meta), names), k) == 1
  {
    var names := Names(params);
    DictCount(meta, k);
    RestCount(DictOf(meta), names, k);
    if k.Some? {
      TakersIs(names, |names|, k.value);
      assert names[..|names|] == names;
    }
  }

  // ----- the order of the orphans -----

  /** Some entry of key x stands before every entry of key y. */
  predicate Precedes(meta: seq<Field>, x: Key, y: Key) {
    exists i | 0 <= i < |meta| :: meta[i].key == x && forall j | 0 <= j <= i :: meta[j].key != y
  }

  function Keys(d: Dict): seq<Key> { if d == [] then [] else [d[0].0] + Keys(d[1..]) }

  lemma {:induction false} KeysAt(d: Dict, i: nat)
    requires i < |d|
    ensures |Keys(d)| == |d| && Keys(d)[i] == d[i].0
  {
    if |d| > 1 { KeysAt(d[1..], if i > 0 then i - 1 else 0); }
  }

  lemma {:induction false} PutInOrder(d: Dict, k: Key, v: seq<Field>)
    ensures Keys(Put(d, k, v)) == if Count(d, k) > 0 then Keys(d) else Keys(d) + [k]
  {
    if d != [] {
      if d[0].0 == k {
        assert ([(k, v)] + d[1..])[1..] == d[1..];
      } else {
        PutInOrder(d[1..], k, v);
        assert ([d[0]] + Put(d[1..], k, v))[1..] == Put(d[1..], k, v);
        assert [d[0].0] + (Keys(d[1..]) + [k]) == ([d[0].0] + Keys(d[1..])) + [k];
      }
    }
  }

  lemma PrecedesLater(meta: seq<Field>, f: Field, x: Key, y: Key)
    requires Precedes(meta, x, y)
    ensures Precedes(meta + [f], x, y)
  {
    var i :| 0 <= i < |meta| && meta[i].key == x && forall j | 0 <= j <= i :: meta[j].key != y;
    assert (meta + [f])[i].key == x;
  }

  lemma {:induction false} CountAt(d: Dict, i: nat)
    requires i < |Keys(d)|
    ensures Count(d, Keys(d)[i]) > 0
  {
    if i > 0 { CountAt(d[1..], i - 1); }
  }

  lemma OldBeforeNew(meta: seq<Field>, f: Field, x: Key)
    requires HasKey(meta, x) && !HasKey(meta, f.key)
    ensures Precedes(meta + [f], x, f.key)
  {
    var g :| g in meta && g.key == x;
    var i :| 0 <= i < |meta| && meta[i] == g;
    assert forall j | 0 <= j < |meta| :: (meta + [f])[j] == meta[j] && meta[j] in meta;
    assert (meta + [f])[i].key == x;
  }

  /** The dict keeps the order in which its keys first came. */
  lemma {:induction false} DictInOrder(meta: seq<Field>, a: nat, b: nat)
    requires (forall f | f in meta :: f.value.Obj?) && a < b < |Keys(DictOf(meta))|
    ensures Precedes(meta, Keys(DictOf(meta))[a], Keys(DictOf(meta))[b])
    decreases |meta|
  {
    var n := |meta| - 1;
    var before := DictOf(meta[..n]);
    var ks, k := Keys(before), meta[n].key;
    assert meta == meta[..n] + [meta[n]];
    PutInOrder(before, k, MetaFields(meta[n].value.fields));
    if b < |ks| {
      DictInOrder(meta[..n], a, b);
      PrecedesLater(meta[..n], meta[n], ks[a], ks[b]);
    } else {
      CountAt(before, a);
      DictCount(meta[..n], ks[a]);
      DictCount(meta[..n], k);
      OldBeforeNew(meta[..n], meta[n], ks[a]);
    }
  }

  lemma {:induction false} RestInOrder(d: Dict, names: seq<string>, a: nat, b: nat) returns (i: nat, j: nat)
    requires a < b < |Rest(d, names)|
    ensures i < j < |d| && d[i] == Rest(d, names)[a] && d[j] == Rest(d, names)[b]
  {
    if d[0].0.Some? && d[0].0.value in names {
      i, j := RestInOrder(d[1..], names, a, b);
      i, j := i + 1, j + 1;
    } else if a > 0 {
      i, j := RestInOrder(d[1..], names, a - 1, b - 1);
      i, j := i + 1, j + 1;
    } else {
      j := RestFrom(d[1..], names, b - 1);
      i, j := 0, j + 1;
    }
  }

  lemma {:induction false} RestFrom(d: Dict, names: seq<string>, b: nat) returns (j: nat)
    requires b < |Rest(d, names)|
    ensures j < |d| && d[j] == Rest(d, names)[b]
  {
    if d[0].0.Some? && d[0].0.value in names {
      j := RestFrom(d[1..], names, b);
      j := j + 1;
    } else if b > 0 {
      j := RestFrom(d[1..], names, b - 1);
      j := j + 1;
    } else {
      j := 0;
    }
  }

  /** Orphans come in the order in which their keys first came. */
  lemma OrphansInOrder(params: seq<Node>, meta: seq<Field>, a: nat, b: nat)
    requires (forall f | f in meta :: f.value.Obj?) && (forall p | p in params :: !p.Obj?)
    requires a < b < |Rest(DictOf(meta), Names(params))|
    ensures var left := Rest(DictOf(meta), Names(params));
            Precedes(meta, left[a].0, left[b].0)
  {
    var i, j := RestInOrder(DictOf(meta), Names(params), a, b);
    KeysAt(DictOf(meta), i);
    KeysAt(DictOf(meta), j);
    DictInOrder(meta, i, j);
  }

  // ----- names -----

  lemma {:induction false} StripRightKeeps(s: string)
    requires s == "" || s[|s| - 1] != '"'
    ensures StripRight(s + "\"") == s
  {
    assert (s + "\"")[..|s|] == s;
  }

  /** A parameter's name is what stands between the quotes, or the text itself when there are none. */
  lemma NameBetweenQuotes(name: string)
    requires name != "" && name[0] != '"' && name[|name| - 1] != '"'
    ensures NameOf(Str(Quotes(name))) == NameOf(Expr(name)) == name
  {
    assert Quotes(name)[1..] == name + "\"";
    assert StripLeft(name + "\"") == name + "\"";
    StripRightKeeps(name);
  }
}
