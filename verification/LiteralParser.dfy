/** The rewriter's parser as the object it is: one position that its methods advance. */
module LiteralParser {
  import opened Wrappers
  import L = Literals
  import opened Positions

  lemma PrependMore(fields: seq<L.Field>, f: L.Field, r: L.Parsed<seq<L.Field>>)
    ensures L.Prepend(fields, L.Prepend([f], r)) == L.Prepend(fields + [f], r)
  {
    if r.Done? { assert fields + ([f] + r.value) == (fields + [f]) + r.value; }
  }

  lemma NothingYet(r: L.Parsed<seq<L.Field>>)
    ensures L.Prepend([], r) == r
  {
    if r.Done? { assert [] + r.value == r.value; }
  }

  /** How far a bare expression from i on reaches when j is reached with `depth` brackets open. */
  function Reach(s: string, i: nat, j: nat, depth: nat): Option<nat>
    requires i <= j <= |s|
  {
    Plus(j - i, L.BareLength(s[j..], depth))
  }

  lemma ReachStarts(s: string, i: nat)
    requires i <= |s|
    ensures Reach(s, i, i, 0) == L.BareLength(s[i..], 0)
  {}

  lemma ReachEnds(s: string, i: nat, j: nat, depth: nat)
    requires i <= j <= |s| && (j == |s| || (depth == 0 && (L.Closes(s[j]) || s[j] == ',')))
    ensures Reach(s, i, j, depth) == Some(j - i)
  {}

  lemma ReachPastChar(s: string, i: nat, j: nat, depth: nat, deeper: nat)
    requires i <= j < |s| && s[j] != '"' && !(depth == 0 && (L.Closes(s[j]) || s[j] == ','))
    requires deeper == if L.Opens(s[j]) then depth + 1 else if L.Closes(s[j]) then depth - 1 else depth
    ensures Reach(s, i, j + 1, deeper) == Reach(s, i, j, depth)
  {
    Later(s, j, 1);
  }

  lemma BareString(t: string, depth: nat, q: nat)
    requires t != "" && t[0] == '"' && L.StringLength(t[1..]) == Some(q)
    ensures L.BareLength(t, depth) == Plus(1 + q, L.BareLength(t[1 + q..], depth))
  {}

  lemma BareUnclosed(t: string, depth: nat)
    requires t != "" && t[0] == '"' && L.StringLength(t[1..]).None?
    ensures L.BareLength(t, depth).None?
  {}

  lemma ReachUnclosed(s: string, i: nat, j: nat, depth: nat)
    requires i <= j < |s| && s[j] == '"' && L.StringLength(s[j + 1..]).None?
    ensures Reach(s, i, j, depth).None?
  {
    Later(s, j, 1);
    BareUnclosed(s[j..], depth);
  }

  lemma ReachPastString(s: string, i: nat, j: nat, end: nat, depth: nat)
    requires i <= j < end < |s| && s[j] == '"' && L.StringLength(s[j + 1..]) == Some(end - j)
    ensures Reach(s, i, j, depth) == Reach(s, i, end + 1, depth)
  {
    Later(s, j, 1);
    BareString(s[j..], depth, end - j);
    Later(s, j, end + 1 - j);
    PlusPlus(j - i, end + 1 - j, L.BareLength(s[end + 1..], depth));
  }

  /** What skipping white space gives when i is reached with `comments` met. */
  function Skip(s: string, i: nat, comments: seq<string>): (seq<string>, string)
    requires i <= |s|
  {
    (comments + L.SkipWs(s[i..]).0, L.SkipWs(s[i..]).1)
  }

  lemma SkipStarts(s: string, i: nat)
    requires i <= |s|
    ensures Skip(s, i, []) == L.SkipWs(s[i..])
  {
    assert [] + L.SkipWs(s[i..]).0 == L.SkipWs(s[i..]).0;
  }

  lemma SkipEnds(s: string, i: nat, comments: seq<string>)
    requires i == |s| || (i < |s| && !L.Blank(s[i]) && !L.StartsWith(s[i..], "//"))
    ensures Skip(s, i, comments) == (comments, s[i..])
  {
    assert comments + [] == comments;
  }

  lemma SkipPastBlank(s: string, i: nat, comments: seq<string>)
    requires i < |s| && L.Blank(s[i])
    ensures Skip(s, i + 1, comments) == Skip(s, i, comments)
  {
    Later(s, i, 1);
  }

  lemma CommentSkips(t: string)
    requires L.StartsWith(t, "//")
    ensures var n := L.LineLength(t);
            0 < n && L.SkipWs(t) == ([L.Strip(t[..n])] + L.SkipWs(t[n..]).0, L.SkipWs(t[n..]).1)
  {
    assert t[0] == '/';
  }

  lemma OneMore(comments: seq<string>, c: string, more: seq<string>)
    ensures comments + ([c] + more) == (comments + [c]) + more
  {}

  lemma SkipPastComment(s: string, i: nat, end: nat, comments: seq<string>)
    requires i <= |s| && L.StartsWith(s[i..], "//") && end == i + L.LineLength(s[i..])
    ensures i < end <= |s| && Skip(s, end, comments + [L.Strip(s[i..end])]) == Skip(s, i, comments)
  {
    CommentSkips(s[i..]);
    Later(s, i, end - i);
    OneMore(comments, L.Strip(s[i..end]), L.SkipWs(s[end..]).0);
  }

  lemma StrIs(t: string)
    requires L.StartsWith(t, "\"")
    ensures L.Value(t) == match L.StringLength(t[1..])
                          case None => L.Raised
                          case Some(n) => L.Done(L.Str(t[..1 + n]), t[1 + n..])
  {
    assert t[0] == '"';
  }

  lemma StrValue(s: string, i: nat, end: Option<nat>)
    requires i < |s| && L.StartsWith(s[i..], "\"") && (end.Some? ==> i < end.value < |s|)
    requires L.StringLength(s[i + 1..]) == if end.None? then None else Some(end.value - i)
    ensures L.Value(s[i..]) == if end.None? then L.Raised else L.Done(L.Str(s[i..end.value + 1]), s[end.value + 1..])
  {
    StrIs(s[i..]);
    Later(s, i, 1);
    if end.Some? { Later(s, i, end.value + 1 - i); }
  }

  lemma BareValue(t: string)
    requires !L.StartsWith(t, ".{") && !L.StartsWith(t, "\"") && !L.StartsWith(t, "&.{")
    ensures L.Value(t) == match L.BareLength(t, 0)
                          case None => L.Raised
                          case Some(n) => L.Done(L.Expr(L.Strip(t[..n])), t[n..])
  {}

  class Parser {
    const s: string
    var i: nat

    ghost predicate Valid()
      reads this
    {
      i <= |s|
    }

    constructor (src: string, pos: nat)
      requires pos <= |src|
      ensures Valid() && s == src && i == pos
    {
      s, i := src, pos;
    }

    /** One turn of the loop below: past a blank, or past a comment, unless neither stands here. */
    method SkipTurn(comments: seq<string>) returns (on: bool, met: seq<string>)
      requires i < |s|
      modifies this
      ensures on ==> old(i) < i <= |s| && Skip(s, i, met) == Skip(s, old(i), comments)
      ensures !on ==> i == old(i) && met == comments && Skip(s, i, met) == (met, s[i..])
    {
      if L.Blank(s[i]) {
        SkipPastBlank(s, i, comments);
        i := i + 1;
        return true, comments;
      }
      if !L.StartsWith(s[i..], "//") {
        SkipEnds(s, i, comments);
        return false, comments;
      }
      var end := i + L.LineLength(s[i..]);
      SkipPastComment(s, i, end, comments);
      met := comments + [L.Strip(s[i..end])];
      i := end;
      return true, met;
    }

    method SkipWs() returns (comments: seq<string>)
      requires Valid()
      modifies this
      ensures Valid() && old(i) <= i && (comments, s[i..]) == L.SkipWs(old(s[i..]))
    {
      comments := [];
      ghost var all := L.SkipWs(s[i..]);
      SkipStarts(s, i);
      while i < |s|
        invariant old(i) <= i <= |s| && Skip(s, i, comments) == all
      {
        var on;
        on, comments := SkipTurn(comments);
        if !on { return; }
      }
      SkipEnds(s, i, comments);
    }

    /** One turn of the loop below: past a string, None when it is not closed, or past one character, unless
        the expression ends before it. */
    method BareTurn(j: nat, depth: nat) returns (ends: bool, next: Option<nat>, deeper: nat)
      requires i <= j < |s|
      ensures ends ==> depth == 0 && (L.Closes(s[j]) || s[j] == ',')
      ensures !ends && next.None? ==> Reach(s, i, j, depth).None?
      ensures !ends && next.Some? ==> j < next.value <= |s| && Reach(s, i, next.value, deeper) == Reach(s, i, j, depth)
    {
      ends, deeper := false, depth;
      var c := s[j];
      if c == '"' {
        var q := StringEnd(s, j + 1);
        if q.None? {
          ReachUnclosed(s, i, j, depth);
          return false, None, depth;
        }
        ReachPastString(s, i, j, q.value, depth);
        return false, Some(q.value + 1), depth;
      }
      if L.Opens(c) {
        deeper := depth + 1;
      } else if L.Closes(c) {
        if depth == 0 { return true, None, depth; }
        deeper := depth - 1;
      } else if c == ',' && depth == 0 {
        return true, None, depth;
      }
      ReachPastChar(s, i, j, depth, deeper);
      return false, Some(j + 1), deeper;
    }

    /** The position a bare expression starting at i ends at. */
    method BareEnd() returns (end: Option<nat>)
      requires Valid()
      ensures L.BareLength(s[i..], 0) == if end.None? then None else Some(end.value - i)
      ensures end.Some? ==> i <= end.value <= |s|
    {
      var depth: nat, j := 0, i;
      ghost var total := L.BareLength(s[i..], 0);
      ReachStarts(s, i);
      while j < |s|
        invariant i <= j <= |s| && total == Reach(s, i, j, depth)
      {
        var ends, next, deeper := BareTurn(j, depth);
        if ends { break; }
        if next.None? { return None; }
        j, depth := next.value, deeper;
      }
      ReachEnds(s, i, j, depth);
      return Some(j);
    }

    method ParseStr() returns (r: L.Parsed<L.Node>)
      requires Valid() && L.StartsWith(s[i..], "\"")
      modifies this
      ensures Valid() && old(i) <= i && r == L.Value(old(s[i..])) && (r.Done? ==> r.rest == s[i..])
    {
      ghost var value := L.Value(s[i..]);
      var end := StringEnd(s, i + 1);
      StrValue(s, i, end);
      if end.None? { return L.Raised; }
      var text := s[i..end.value + 1];
      i := end.value + 1;
      r := L.Done(L.Str(text), s[i..]);
      assert r == value;
    }

    method ParseBare() returns (r: L.Parsed<L.Node>)
      requires Valid() && !L.StartsWith(s[i..], ".{") && !L.StartsWith(s[i..], "\"") && !L.StartsWith(s[i..], "&.{")
      modifies this
      ensures Valid() && old(i) <= i && r == L.Value(old(s[i..])) && (r.Done? ==> r.rest == s[i..])
    {
      ghost var t := s[i..];
      BareValue(t);
      var end := BareEnd();
      if end.None? {
        assert L.BareLength(t, 0).None? && L.Value(t) == L.Raised;
        return L.Raised;
      }
      Later(s, i, end.value - i);
      var text := L.Strip(s[i..end.value]);
      i := end.value;
      return L.Done(L.Expr(text), s[i..]);
    }

    method ParseValue() returns (r: L.Parsed<L.Node>)
      requires Valid()
      modifies this
      ensures Valid() && old(i) <= i && r == L.Value(old(s[i..])) && (r.Done? ==> r.rest == s[i..])
      decreases |s| - i, 1
    {
      if L.StartsWith(s[i..], ".{") {
        r := ParseObj();
        return;
      }
      if L.StartsWith(s[i..], "\"") {
        r := ParseStr();
        return;
      }
      if L.StartsWith(s[i..], "&.{") {
        Later(s, i, 1);
        i := i + 1;
        r := ParseObj();
        if r.Done? { r := L.Done(L.Expr("&" + L.Emit(r.value, 0)), r.rest); }
        return;
      }
      r := ParseBare();
    }

    /** Reads the key of a field and moves to its value. */
    method ParseKey() returns (key: Option<string>)
      requires Valid()
      modifies this
      ensures Valid() && old(i) <= i && (key, s[i..]) == L.KeyOf(old(s[i..]))
    {
      var m := L.KeyAt(s[i..]);
      if m.None? { return None; }
      ghost var expected := L.KeyOf(s[i..]);
      KeyMoves(s, i);
      i := |s| - |m.value.1|;
      assert s[i..] == m.value.1;
      var comments := SkipWs();
      assert (Some(m.value.0), s[i..]) == expected;
      return Some(m.value.0);
    }

    /** One round of the loop in ParseObj after the comments: the field, unless its value cannot be read. */
    method ParseField() returns (r: L.Parsed<(Option<string>, L.Node)>)
      requires Valid()
      modifies this
      ensures Valid() && old(i) <= i
      ensures var (key, u) := L.KeyOf(old(s[i..]));
              match L.Value(u)
              case Raised => r.Raised?
              case Diverged => r.Diverged?
              case Done(value, v) => r == L.Done((key, value), s[i..]) && s[i..] == L.AfterComma(v)
      decreases |s| - i, 2
    {
      var key := ParseKey();
      var value := ParseValue();
      match value {
        case Raised => return L.Raised;
        case Diverged => return L.Diverged;
        case Done(node, rest) =>
          SkipComma();
          return L.Done((key, node), s[i..]);
      }
    }

    /** White space and a comma, when there is one. */
    method SkipComma()
      requires Valid()
      modifies this
      ensures Valid() && old(i) <= i && s[i..] == L.AfterComma(old(s[i..]))
    {
      var skipped := SkipWs();
      if i < |s| && s[i] == ',' {
        Later(s, i, 1);
        i := i + 1;
      }
    }

    /** The loop of ParseObj, from behind the opening brace to behind the closing one. */
    method ParseFields() returns (r: L.Parsed<seq<L.Field>>)
      requires Valid()
      modifies this
      ensures Valid() && old(i) <= i && r == L.Fields(old(s[i..])) && (r.Done? ==> r.rest == s[i..])
      decreases |s| - i, 3
    {
      ghost var t := s[i..];
      var fields: seq<L.Field> := [];
      NothingYet(L.Fields(t));
      while true
        invariant Valid() && old(i) <= i && L.Fields(t) == L.Prepend(fields, L.Fields(s[i..]))
        decreases |s| - i
      {
        var before := i;
        ghost var left := s[i..];
        var comments := SkipWs();
        if i < |s| && s[i] == '}' {
          Later(s, i, 1);
          i := i + 1;
          FieldsClose(left, s[i..]);
          assert fields + [] == fields;
          return L.Done(fields, s[i..]);
        }
        var field := ParseField();
        if FirstValue(left).Done? { FieldsGoOn(left); } else { FieldsFail(left); }
        if field.Raised? { return L.Raised; }
        if field.Diverged? || i == before { return L.Diverged; }
        ghost var f := L.Field(field.value.0, field.value.1, comments);
        PrependMore(fields, f, L.Fields(s[i..]));
        fields := fields + [L.Field(field.value.0, field.value.1, comments)];
      }
    }

    method ParseObj() returns (r: L.Parsed<L.Node>)
      requires Valid()
      modifies this
      ensures Valid() && old(i) <= i && r == L.Object(old(s[i..])) && (r.Done? ==> r.rest == s[i..])
      decreases |s| - i, 0
    {
      ghost var t := s[i..];
      if !L.StartsWith(s[i..], ".{") { return L.Raised; }
      var start := i;
      i := i + 2;
      Later(s, start, 2);
      var fields := ParseFields();
      if fields.Raised? { return L.Raised; }
      if fields.Diverged? { return L.Diverged; }
      Later(s, start, i - start);
      return L.Done(L.Obj(fields.value, '\n' in s[start..i]), s[i..]);
    }
  }

  lemma FieldsClose(t: string, rest: string)
    requires L.StartsWith(L.SkipWs(t).1, "}") && L.SkipWs(t).1[1..] == rest
    ensures L.Fields(t) == L.Done([], rest)
  {}

  /** The value of the field that t starts with, and what follows it. */
  function FirstValue(t: string): L.Parsed<L.Node> { L.Value(L.KeyOf(L.SkipWs(t).1).1) }

  lemma FieldsFail(t: string)
    requires !L.StartsWith(L.SkipWs(t).1, "}") && !FirstValue(t).Done?
    ensures L.Fields(t) == if FirstValue(t).Raised? then L.Raised else L.Diverged
  {}

  lemma FieldsGoOn(t: string)
    requires !L.StartsWith(L.SkipWs(t).1, "}") && FirstValue(t).Done?
    ensures var (comments, u) := L.SkipWs(t);
            var next := L.AfterComma(FirstValue(t).rest);
            L.Fields(t) == if |next| == |t| then L.Diverged
                           else L.Prepend([L.Field(L.KeyOf(u).0, FirstValue(t).value, comments)], L.Fields(next))
  {}

  lemma SpacesAreSuffix(t: string)
    requires L.AfterEquals(t).Some?
    ensures L.AfterEquals(t).value == t[|t| - |L.AfterEquals(t).value|..]
  {
    assert t[L.SpaceLength(t)..][1..] == t[L.SpaceLength(t) + 1..];
  }

  lemma KeyIsSuffix(s: string)
    requires L.KeyAt(s).Some?
    ensures L.KeyAt(s).value.1 == s[|s| - |L.KeyAt(s).value.1|..]
  {
    var t := s[1 + L.NameLength(s[1..]).value..];
    var rest := L.KeyAt(s).value.1;
    assert L.AfterEquals(t) == Some(rest);
    SpacesAreSuffix(t);
    Later(s, |s| - |t|, |t| - |rest|);
  }

  lemma KeyMoves(s: string, i: nat)
    requires i <= |s| && L.KeyAt(s[i..]).Some?
    ensures var rest := L.KeyAt(s[i..]).value.1;
            i <= |s| - |rest| && s[|s| - |rest|..] == rest
  {
    var rest := L.KeyAt(s[i..]).value.1;
    KeyIsSuffix(s[i..]);
    Later(s, i, |s| - i - |rest|);
  }
}
