/** Parsing what was printed gives the tree back, with the line-break flags set as the text shows them. */
module LiteralRoundTrip {
  import opened Wrappers
  import opened Literals

  // ----- normal form -----

  /** The node prints on more than one line. */
  predicate Breaks(node: Node)
    decreases node, 0
  {
    match node
    case Str(text) => '\n' in text
    case Expr(text) => '\n' in text
    case Obj(fields, multiline) => fields != [] && (multiline || Commented(fields) || BreaksAny(fields))
  }

  predicate BreaksAny(fields: seq<Field>)
    decreases fields, 0
  {
    fields != []
    && ((fields[0].key.Some? && '\n' in fields[0].key.value) || Breaks(fields[0].value) || BreaksAny(fields[1..]))
  }

  /** Only the flags differ from the node: set where it prints on several lines, cleared elsewhere. */
  function Normal(node: Node): Node
    decreases node, 0
  {
    match node
    case Obj(fields, _) => Obj(NormalAll(fields), Breaks(node))
    case _ => node
  }

  function NormalAll(fields: seq<Field>): (r: seq<Field>)
    ensures |r| == |fields|
    decreases fields, 0
  {
    if fields == [] then [] else [fields[0].(value := Normal(fields[0].value))] + NormalAll(fields[1..])
  }

  // ----- well-formed leaves -----

  /** The key expression of the parser matches the whole key. */
  predicate WfKey(key: string) { NameLength(key) == Some(|key|) }

  predicate WfComment(c: string) { StartsWith(c, "//") && '\n' !in c && !Space(c[|c| - 1]) }

  predicate WfComments(cs: seq<string>) { forall c | c in cs :: WfComment(c) }

  predicate WfStr(text: string) { StartsWith(text, "\"") && StringLength(text[1..]) == Some(|text| - 1) }

  /** Brackets and quotes close inside the text, and no comma stands outside of brackets. */
  predicate Closed(s: string, depth: nat)
    decreases |s|
  {
    if s == "" then depth == 0
    else if depth == 0 && (Closes(s[0]) || s[0] == ',') then false
    else if s[0] == '"' then
      var q := StringLength(s[1..]);
      q.Some? && Closed(s[1 + q.value..], depth)
    else Closed(s[1..], if Opens(s[0]) then depth + 1 else if Closes(s[0]) then depth - 1 else depth)
  }

  predicate WfBare(text: string) {
    && text != "" && !Space(text[0]) && !Space(text[|text| - 1]) && text[0] != '"'
    && !StartsWith(text, "//") && !StartsWith(text, ".{") && !StartsWith(text, "&.{") && Closed(text, 0)
  }

  /** Leaves the parser reads as they stand.  A slice is the printed form of a normal literal, whose own
      leaves may again be slices, up to any depth d. */
  ghost predicate Wf(node: Node, d: nat)
    decreases d, node, 0
  {
    match node
    case Str(text) => WfStr(text)
    case Expr(text) =>
      WfBare(text) || (d > 0 && exists o: Node :: o.Obj? && Wf(o, d - 1) && Normal(o) == o && text == "&" + Emit(o, 0))
    case Obj(fields, _) => WfAll(fields, d)
  }

  ghost predicate WfAll(fields: seq<Field>, d: nat)
    decreases d, fields, 0
  {
    fields != [] ==> WfHead(fields[0]) && Wf(fields[0].value, d) && WfAll(fields[1..], d)
  }

  predicate WfHead(f: Field) {
    && (f.key.Some? ==> WfKey(f.key.value))
    && (f.key.None? && f.value.Expr? ==> KeyAt(f.value.text).None?)
    && WfComments(f.comments)
  }

  // ----- concatenations -----

  lemma Assoc3(a: string, b: string, c: string)
    ensures (a + b) + c == a + (b + c)
  {}

  lemma Assoc4(a: string, b: string, c: string, d: string)
    ensures (a + (b + c)) + d == a + (b + (c + d))
  {
    Assoc3(a, b + c, d);
    Assoc3(b, c, d);
  }

  lemma Assoc5(a: string, b: string, c: string, d: string, e: string)
    ensures (a + (b + (c + d))) + e == a + (b + (c + (d + e)))
  {
    Assoc3(a, b + (c + d), e);
    Assoc4(b, c, d, e);
  }

  // ----- white space and comments -----

  predicate Solid(s: string) { s != "" && !Blank(s[0]) && !StartsWith(s, "//") }

  lemma SkipOne(c: char, s: string)
    requires Blank(c)
    ensures SkipWs([c] + s) == SkipWs(s)
  {
    assert ([c] + s)[1..] == s;
  }

  lemma {:induction false} SkipIndent(k: nat, s: string)
    ensures SkipWs(Indent(k) + s) == SkipWs(s)
  {
    if k == 0 {
      assert "" + s == s;
    } else {
      var t := Indent(k - 1) + s;
      assert Indent(k) + s == [' '] + ([' '] + ([' '] + ([' '] + t)));
      SkipOne(' ', [' '] + ([' '] + ([' '] + t)));
      SkipOne(' ', [' '] + ([' '] + t));
      SkipOne(' ', [' '] + t);
      SkipOne(' ', t);
      SkipIndent(k - 1, s);
    }
  }

  lemma {:induction false} LineLengthIs(c: string, s: string)
    requires '\n' !in c
    ensures LineLength(c + ("\n" + s)) == |c|
  {
    if c != "" {
      assert (c + ("\n" + s))[1..] == c[1..] + ("\n" + s);
      LineLengthIs(c[1..], s);
    }
  }

  lemma StripKeeps(s: string)
    requires s != "" && !Space(s[0]) && !Space(s[|s| - 1])
    ensures Strip(s) == s && Strip(s + " ") == s
  {
    assert (s + " ")[..|s|] == s;
    assert TrimEnd(s + " ") == TrimEnd(s);
  }

  lemma SkipComment(c: string, s: string)
    requires WfComment(c)
    ensures SkipWs(c + ("\n" + s)) == ([c] + SkipWs(s).0, SkipWs(s).1)
  {
    var t := c + ("\n" + s);
    LineLengthIs(c, s);
    StripKeeps(c);
    assert t[0] == '/' && StartsWith(t, "//") && t[..|c|] == c && t[|c|..] == ['\n'] + s;
    SkipOne('\n', s);
  }

  lemma SkipCommentLine(c: string, k: nat, s: string)
    requires WfComment(c)
    ensures SkipWs(Indent(k) + (c + ("\n" + s))) == ([c] + SkipWs(s).0, SkipWs(s).1)
  {
    SkipIndent(k, c + ("\n" + s));
    SkipComment(c, s);
  }

  lemma FirstComment(cs: seq<string>, k: nat, s: string)
    requires WfComments(cs) && cs != []
    ensures var more := SkipWs(CommentLines(cs[1..], k) + s);
            SkipWs(CommentLines(cs, k) + s) == ([cs[0]] + more.0, more.1)
  {
    var more := CommentLines(cs[1..], k);
    Assoc5(Indent(k + 1), cs[0], "\n", more, s);
    SkipCommentLine(cs[0], k + 1, more + s);
  }

  lemma FirstThenRest<T>(xs: seq<T>, more: seq<T>)
    requires xs != []
    ensures [xs[0]] + (xs[1..] + more) == xs + more
  {}

  lemma {:induction false} SkipComments(cs: seq<string>, k: nat, s: string)
    requires WfComments(cs)
    ensures SkipWs(CommentLines(cs, k) + s) == (cs + SkipWs(s).0, SkipWs(s).1)
  {
    if cs == [] {
      assert "" + s == s && [] + SkipWs(s).0 == SkipWs(s).0;
    } else {
      SkipComments(cs[1..], k, s);
      FirstComment(cs, k, s);
      FirstThenRest(cs, SkipWs(s).0);
    }
  }

  // ----- leaves in front of other text -----

  /** What the printer puts behind a value. */
  predicate Follows(s: string) { StartsWith(s, ",") || StartsWith(s, " }") }

  lemma {:induction false} StringLocal(a: string, s: string)
    requires StringLength(a).Some?
    ensures StringLength(a + s) == StringLength(a)
    decreases |a|
  {
    if a[0] == '"' {
    } else if a[0] == '\\' {
      assert (a + s)[2..] == a[2..] + s;
      StringLocal(a[2..], s);
    } else {
      assert (a + s)[1..] == a[1..] + s;
      StringLocal(a[1..], s);
    }
  }

  lemma Shift(a: string, n: nat, s: string)
    requires n <= |a|
    ensures (a + s)[n..] == a[n..] + s
  {}

  lemma {:induction false} BareLocal(a: string, depth: nat, s: string)
    requires Closed(a, depth) && BareLength(s, 0).Some?
    ensures BareLength(a + s, depth) == Some(|a| + BareLength(s, 0).value)
    decreases |a|, 1
  {
    if a == "" {
      assert a + s == s;
    } else if a[0] == '"' {
      BareString(a, depth, s);
    } else {
      Shift(a, 1, s);
      BareLocal(a[1..], if Opens(a[0]) then depth + 1 else if Closes(a[0]) then depth - 1 else depth, s);
    }
  }

  lemma {:induction false} BareString(a: string, depth: nat, s: string)
    requires Closed(a, depth) && BareLength(s, 0).Some? && a != "" && a[0] == '"'
    ensures BareLength(a + s, depth) == Some(|a| + BareLength(s, 0).value)
    decreases |a|, 0
  {
    var q := StringLength(a[1..]).value;
    Shift(a, 1, s);
    StringLocal(a[1..], s);
    Shift(a, 1 + q, s);
    BareLocal(a[1 + q..], depth, s);
  }

  lemma BareStops(s: string)
    requires Follows(s)
    ensures BareLength(s, 0) == Some(if s[0] == ',' then 0 else 1)
  {
    if s[0] == ' ' { assert s[1..][0] == '}'; }
  }

  // ----- keys -----

  lemma {:induction false} IdentLocal(a: string, s: string)
    requires s == "" || !IdentChar(s[0])
    ensures IdentLength(a + s) == IdentLength(a)
  {
    if a == "" {
      assert a + s == s;
    } else {
      Shift(a, 1, s);
      if IdentChar(a[0]) { IdentLocal(a[1..], s); }
    }
  }

  lemma {:induction false} QuoteLocal(a: string, s: string)
    requires QuoteIndex(a) < |a|
    ensures QuoteIndex(a + s) == QuoteIndex(a)
  {
    Shift(a, 1, s);
    if a[0] != '"' { QuoteLocal(a[1..], s); }
  }

  lemma {:induction false} SpaceLocal(a: string, s: string)
    ensures SpaceLength(a + s) == if SpaceLength(a) < |a| then SpaceLength(a) else |a| + SpaceLength(s)
  {
    if a == "" {
      assert a + s == s;
    } else {
      Shift(a, 1, s);
      if Space(a[0]) { SpaceLocal(a[1..], s); }
    }
  }

  lemma {:induction false} StringHasQuote(a: string)
    requires StringLength(a).Some?
    ensures QuoteIndex(a) < |a|
    decreases |a|
  {
    if a[0] == '\\' {
      StringHasQuote(a[2..]);
    } else if a[0] != '"' {
      StringHasQuote(a[1..]);
    }
  }

  /** A quote that opens in a closes in a. */
  predicate QuoteCloses(a: string) { StartsWith(a, "@\"") ==> QuoteIndex(a[2..]) < |a| - 2 }

  lemma NameLocal(a: string, s: string)
    requires s != "" && (s[0] == ' ' || s[0] == ',') && QuoteCloses(a)
    ensures NameLength(a + s) == NameLength(a)
  {
    assert StartsWith(a + s, "@\"") ==> StartsWith(a, "@\"") by {
      if StartsWith(a + s, "@\"") { assert (a + s)[0] == '@' && (a + s)[1] == '"'; }
    }
    if StartsWith(a, "@\"") {
      assert StartsWith(a + s, "@\"");
      Shift(a, 2, s);
      QuoteLocal(a[2..], s);
    } else {
      IdentLocal(a, s);
      assert a + s != "" && (a == "" ==> (a + s)[0] == s[0]);
    }
  }

  lemma EqualsRound(s: string)
    ensures AfterEquals(" = " + s) == Some(" " + s)
  {
    var t := " = " + s;
    assert t[0] == ' ' && t[1] == '=' && t[2] == ' ';
    assert SpaceLength(t) == 1;
    assert t[1..] == "=" + (" " + s);
  }

  lemma Cut(a: string, b: string)
    ensures (a + b)[..|a|] == a && (a + b)[|a|..] == b
  {}

  lemma DotName(key: string, s: string)
    requires WfKey(key) && s != "" && s[0] == ' '
    ensures KeyAt("." + (key + s)) == match AfterEquals(s) case None => None case Some(rest) => Some((key, rest))
  {
    Cut(".", key + s);
    Cut("." + key, s);
    Cut(".", key);
    Assoc3(".", key, s);
    NameLocal(key, s);
    assert ("." + (key + s))[1..1 + |key|] == ("." + key)[1..];
  }

  lemma KeyRound(key: string, s: string)
    requires WfKey(key) && Solid(s)
    ensures KeyOf(Head(Some(key)) + s) == (Some(key), s)
  {
    Assoc4(".", key, " = ", s);
    EqualsRound(s);
    DotName(key, " = " + s);
    SkipOne(' ', s);
  }

  lemma EqualsLocal(t: string, s: string)
    requires AfterEquals(t).None? && Follows(s)
    ensures AfterEquals(t + s).None?
  {
    SpaceLocal(t, s);
    var n := SpaceLength(t);
    if n < |t| {
      Shift(t, n, s);
      EqualsSign(t[n..], s);
    } else {
      AfterSpaces(t, s);
    }
  }

  lemma EqualsSign(u: string, s: string)
    requires u != "" && !(StartsWith(u, "=") && !StartsWith(u[1..], "="))
    ensures !(StartsWith(u + s, "=") && !StartsWith((u + s)[1..], "="))
  {
    assert (u + s)[0] == u[0];
    if |u| > 1 { assert (u + s)[1] == u[1]; }
  }

  lemma NotEquals(s: string)
    requires SpaceLength(s) < |s| && s[SpaceLength(s)] != '='
    ensures AfterEquals(s).None?
  {
    assert s[SpaceLength(s)..][0] == s[SpaceLength(s)];
  }

  lemma FollowsSpace(s: string)
    requires Follows(s)
    ensures SpaceLength(s) < |s| && (s[SpaceLength(s)] == ',' || s[SpaceLength(s)] == '}')
  {
    if s[0] == ' ' { assert s[1..][0] == '}' && SpaceLength(s[1..]) == 0; }
  }

  lemma AfterSpaces(t: string, s: string)
    requires Follows(s) && SpaceLength(t) == |t|
    ensures AfterEquals(t + s).None?
  {
    SpaceLocal(t, s);
    FollowsSpace(s);
    assert (t + s)[|t| + SpaceLength(s)] == s[SpaceLength(s)];
    NotEquals(t + s);
  }

  lemma ClosedQuote(text: string)
    requires Closed(text, 0) && StartsWith(text, ".")
    ensures QuoteCloses(text[1..])
  {
    var a := text[1..];
    if StartsWith(a, "@\"") {
      assert a[0] == '@' && a[1] == '"' && Closed(a, 0) && Closed(a[1..], 0);
      assert a[1..][1..] == a[2..];
      StringHasQuote(a[2..]);
    }
  }

  /** A bare expression that is no key by itself is none in front of other text. */
  lemma NoKey(text: string, s: string)
    requires KeyAt(text).None? && Closed(text, 0) && Follows(s) && text != ""
    ensures KeyAt(text + s).None?
  {
    assert (text + s)[0] == text[0];
    if StartsWith(text, ".") {
      ClosedQuote(text);
      Shift(text, 1, s);
      NameLocal(text[1..], s);
      var n := NameLength(text[1..]);
      if n.Some? {
        Shift(text, 1 + n.value, s);
        EqualsLocal(text[1 + n.value..], s);
      }
    }
  }

  // ----- the first character of a value -----

  lemma NoComment(e: string, s: string)
    requires e != "" && !StartsWith(e, "//") && Follows(s)
    ensures !StartsWith(e + s, "//")
  {
    if |e| == 1 { assert (e + s)[1] == s[0]; } else { assert (e + s)[0] == e[0] && (e + s)[1] == e[1]; }
  }

  /** A printed value starts with something to read: no blank, no comment, no closing brace. */
  lemma ValueStarts(node: Node, d: nat, k: nat, s: string)
    requires Wf(node, d) && Follows(s)
    ensures Solid(Emit(node, k) + s) && !StartsWith(Emit(node, k) + s, "}")
  {
    var e := Emit(node, k);
    var t := e + s;
    if node.Obj? {
      assert e[0] == '.' && t[0] == '.';
    } else {
      assert e != "" && t[0] == e[0];
      if node.Expr? && !WfBare(node.text) { assert e[0] == '&'; }
      NoComment(e, s);
    }
  }

  lemma NoHead(node: Node, d: nat, k: nat, s: string)
    requires Wf(node, d) && Follows(s) && (node.Expr? ==> KeyAt(node.text).None?)
    ensures KeyOf(Emit(node, k) + s) == (None, Emit(node, k) + s)
  {
    var e := Emit(node, k);
    var t := e + s;
    match node
    case Obj(_, _) => assert e[0] == '.' && e[1] == '{' && t[0] == '.' && t[1] == '{' && t[1..][0] == '{';
    case Str(_) => assert t[0] == '"';
    case Expr(text) =>
      if WfBare(text) { NoKey(text, s); } else { assert t[0] == '&'; }
  }

  // ----- the round trip -----

  lemma BareRound(text: string, s: string)
    requires WfBare(text) && Follows(s)
    ensures Value(text + s).Done? && Value(text + s).value == Expr(text)
    ensures SkipWs(Value(text + s).rest).1 == SkipWs(s).1
  {
    var t := text + s;
    BareStarts(text, s);
    BareStops(s);
    BareLocal(text, 0, s);
    StripKeeps(text);
    if s[0] == ',' {
      Cut(text, s);
    } else {
      assert s == [' '] + s[1..];
      SkipOne(' ', s[1..]);
      assert t[..|text| + 1] == text + " " && t[|text| + 1..] == s[1..];
    }
  }

  lemma BareStarts(text: string, s: string)
    requires WfBare(text) && Follows(s)
    ensures !StartsWith(text + s, ".{") && !StartsWith(text + s, "\"") && !StartsWith(text + s, "&.{")
  {
    var t := text + s;
    assert t[0] == text[0];
    if |text| == 1 { assert t[1] == s[0]; } else { assert t[1] == text[1]; }
    if |text| == 2 { assert t[2] == s[0]; } else if |text| > 2 { assert t[2] == text[2]; }
  }

  lemma StrRound(text: string, s: string)
    requires WfStr(text)
    ensures Value(text + s) == Done(Str(text), s)
  {
    Shift(text, 1, s);
    StringLocal(text[1..], s);
    Cut(text, s);
    assert (text + s)[0] == '"';
  }

  /** One round of the loop, for any field whose value is read back. */
  lemma FieldRound(s: string, f: Field, d: nat, k: nat, next: string)
    requires WfHead(f) && Wf(f.value, d) && Follows(next) && |AfterComma(next)| < |s|
    requires SkipWs(s) == (f.comments, Head(f.key) + (Emit(f.value, k) + next))
    requires Value(Emit(f.value, k) + next).Done? && Value(Emit(f.value, k) + next).value == Normal(f.value)
    requires SkipWs(Value(Emit(f.value, k) + next).rest).1 == SkipWs(next).1
    ensures Fields(s) == match Fields(AfterComma(next))
                         case Raised => Raised
                         case Diverged => Diverged
                         case Done(fields, rest) => Done([f.(value := Normal(f.value))] + fields, rest)
  {
    var u := Emit(f.value, k) + next;
    ValueStarts(f.value, d, k, next);
    var t := Head(f.key) + u;
    if f.key.None? {
      assert t == u;
      NoHead(f.value, d, k, next);
    } else {
      KeyRound(f.key.value, u);
      assert t[0] == '.';
    }
    assert KeyOf(t) == (f.key, u);
    assert AfterComma(Value(u).rest) == AfterComma(next);
  }

  lemma Follow(s: string)
    ensures Follows("," + s) && AfterComma("," + s) == s
    ensures Follows(" }" + s) && AfterComma(" }" + s) == "}" + s
  {
    assert ("," + s)[1..] == s;
    assert " }" + s == [' '] + ("}" + s);
    SkipOne(' ', "}" + s);
  }

  lemma FieldsEnd(s: string)
    ensures Fields("}" + s) == Done([], s)
  {
    assert ("}" + s)[1..] == s;
  }

  lemma FieldSolid(f: Field, d: nat, k: nat, more: string)
    requires WfHead(f) && Wf(f.value, d) && Follows(more)
    ensures Solid(Head(f.key) + (Emit(f.value, k) + more))
  {
    var u := Emit(f.value, k) + more;
    ValueStarts(f.value, d, k, more);
    if f.key.None? { assert Head(f.key) + u == u; } else { assert (Head(f.key) + u)[0] == '.'; }
  }

  lemma SkipToField(comments: seq<string>, k: nat, t: string)
    requires WfComments(comments) && Solid(t)
    ensures SkipWs("\n" + (CommentLines(comments, k) + (Indent(k + 1) + t))) == (comments, t)
  {
    SkipOne('\n', CommentLines(comments, k) + (Indent(k + 1) + t));
    SkipComments(comments, k, Indent(k + 1) + t);
    SkipIndent(k + 1, t);
    assert comments + [] == comments;
  }

  lemma LineOpens(f: Field, d: nat, k: nat, more: string)
    requires WfHead(f) && Wf(f.value, d) && Follows(more)
    ensures SkipWs("\n" + (CommentLines(f.comments, k) + (Indent(k + 1) + (Head(f.key) + (Emit(f.value, k + 1) + more)))))
            == (f.comments, Head(f.key) + (Emit(f.value, k + 1) + more))
  {
    FieldSolid(f, d, k + 1, more);
    SkipToField(f.comments, k, Head(f.key) + (Emit(f.value, k + 1) + more));
  }

  lemma LineSplit(fields: seq<Field>, k: nat, t: string)
    requires fields != []
    ensures var f := fields[0];
            Lines(fields, k) + t == CommentLines(f.comments, k) + (Indent(k + 1) + (Head(f.key) + (Emit(f.value, k + 1)
                                    + (",\n" + (Lines(fields[1..], k) + t)))))
  {
    var f := fields[0];
    var a, b, c := CommentLines(f.comments, k), Indent(k + 1), Head(f.key);
    var e, more := Emit(f.value, k + 1), Lines(fields[1..], k);
    Assoc3(a, b + (c + (e + (",\n" + more))), t);
    Assoc3(b, c + (e + (",\n" + more)), t);
    Assoc3(c, e + (",\n" + more), t);
    Assoc4(e, ",\n", more, t);
  }

  lemma RowSplit(fields: seq<Field>, k: nat, t: string)
    requires fields != []
    ensures var f, more := fields[0], if |fields| == 1 then t else "," + (" " + (Row(fields[1..], k) + t));
            Row(fields, k) + t == Head(f.key) + (Emit(f.value, k + 1) + more)
  {
    var f := fields[0];
    if |fields| == 1 {
      assert Emit(f.value, k + 1) + "" == Emit(f.value, k + 1);
      Assoc3(Head(f.key), Emit(f.value, k + 1), t);
    } else {
      Assoc4(Head(f.key), Emit(f.value, k + 1), ", " + Row(fields[1..], k), t);
      Assoc3(", ", Row(fields[1..], k), t);
      assert ", " + (Row(fields[1..], k) + t) == "," + (" " + (Row(fields[1..], k) + t));
    }
  }

  lemma RowOpens(f: Field, d: nat, k: nat, more: string)
    requires WfHead(f) && Wf(f.value, d) && Follows(more)
    ensures SkipWs(" " + (Head(f.key) + (Emit(f.value, k + 1) + more))) == ([], Head(f.key) + (Emit(f.value, k + 1) + more))
  {
    FieldSolid(f, d, k + 1, more);
    SkipOne(' ', Head(f.key) + (Emit(f.value, k + 1) + more));
  }

  // ----- line breaks -----

  /** A node prints a line break exactly when its normal flag is set. */
  lemma {:induction false} EmitBreaks(node: Node, k: nat)
    ensures '\n' in Emit(node, k) <==> Breaks(node)
    decreases node, 0
  {
    if node.Obj? && node.fields != [] {
      var fields := node.fields;
      if node.multiline || Commented(fields) {
        assert Emit(node, k)[2] == '\n';
      } else {
        RowBreaks(fields, k);
        var row := Row(fields, k);
        assert '\n' in ".{ " + (row + " }") <==> '\n' in row;
      }
    }
  }

  lemma {:induction false} RowBreaks(fields: seq<Field>, k: nat)
    ensures '\n' in Row(fields, k) <==> BreaksAny(fields)
    decreases fields, 0
  {
    if fields != [] {
      var f := fields[0];
      EmitBreaks(f.value, k + 1);
      RowBreaks(fields[1..], k);
      var head, more := Head(f.key), if |fields| == 1 then "" else ", " + Row(fields[1..], k);
      assert '\n' in head <==> f.key.Some? && '\n' in f.key.value;
      assert '\n' in more <==> BreaksAny(fields[1..]);
    }
  }

  // ----- the theorem -----

  /** A printed literal parses to its normal form, whatever the indent and whatever follows it. */
  lemma {:induction false} ObjectRoundTrip(node: Node, d: nat, k: nat, s: string)
    requires node.Obj? && Wf(node, d)
    ensures Object(Emit(node, k) + s) == Done(Normal(node), s)
    decreases d, node, 1
  {
    var e := Emit(node, k);
    ObjectFields(node, d, k, s);
    Cut(e, s);
    EmitBreaks(node, k);
    assert StartsWith(e, ".{");
    Shift(e, 2, s);
    assert StartsWith(e + s, ".{");
  }

  lemma {:induction false} ObjectFields(node: Node, d: nat, k: nat, s: string)
    requires node.Obj? && Wf(node, d)
    ensures |Emit(node, k)| >= 2 && Fields(Emit(node, k)[2..] + s) == Done(NormalAll(node.fields), s)
    decreases d, node, 0
  {
    var fields := node.fields;
    if fields == [] {
      FieldsEnd(s);
    } else if node.multiline || Commented(fields) {
      LinesText(node, k, s);
      LinesRoundTrip(fields, d, k, s);
    } else {
      RowText(node, k, s);
      RowRoundTrip(fields, d, k, s);
    }
  }

  lemma LinesText(node: Node, k: nat, s: string)
    requires node.Obj? && node.fields != [] && (node.multiline || Commented(node.fields))
    ensures |Emit(node, k)| >= 2
    ensures Emit(node, k)[2..] + s == "\n" + (Lines(node.fields, k) + ((Indent(k) + "}") + s))
  {
    var lines, close := Lines(node.fields, k), Indent(k) + "}";
    assert Emit(node, k)[2..] == "\n" + (lines + close);
    Assoc4("\n", lines, close, s);
  }

  lemma RowText(node: Node, k: nat, s: string)
    requires node.Obj? && node.fields != [] && !node.multiline && !Commented(node.fields)
    ensures |Emit(node, k)| >= 2
    ensures Emit(node, k)[2..] + s == " " + (Row(node.fields, k) + (" }" + s))
  {
    var row := Row(node.fields, k);
    assert Emit(node, k)[2..] == " " + (row + " }");
    Assoc4(" ", row, " }", s);
  }

  lemma {:induction false} ValueRoundTrip(node: Node, d: nat, k: nat, s: string)
    requires Wf(node, d) && Follows(s)
    ensures Value(Emit(node, k) + s).Done? && Value(Emit(node, k) + s).value == Normal(node)
    ensures SkipWs(Value(Emit(node, k) + s).rest).1 == SkipWs(s).1
    decreases d, node, 2
  {
    match node
    case Obj(_, _) =>
      ObjectRoundTrip(node, d, k, s);
      assert StartsWith(Emit(node, k), ".{");
      Cut(Emit(node, k), s);
      assert StartsWith(Emit(node, k) + s, ".{");
    case Str(text) => StrRound(text, s);
    case Expr(text) => if WfBare(text) { BareRound(text, s); } else { SliceRound(text, d, s); }
  }

  lemma SliceValue(e: string, o: Node, s: string)
    requires StartsWith(e, ".{") && Emit(o, 0) == e && Object(e + s) == Done(o, s)
    ensures Value(("&" + e) + s) == Done(Expr("&" + e), s)
  {
    Assoc3("&", e, s);
    Cut("&", e + s);
    var t := "&" + (e + s);
    assert t[0] == '&' && t[1] == e[0] && t[2] == e[1];
  }

  lemma {:induction false} SliceRound(text: string, d: nat, s: string)
    requires Wf(Expr(text), d) && !WfBare(text)
    ensures Value(text + s) == Done(Expr(text), s)
    decreases d, Expr(text), 1
  {
    var o: Node :| o.Obj? && Wf(o, d - 1) && Normal(o) == o && text == "&" + Emit(o, 0);
    ObjectRoundTrip(o, d - 1, 0, s);
    SliceValue(Emit(o, 0), o, s);
  }

  lemma LinesEnd(k: nat, s: string)
    ensures Fields("\n" + ((Indent(k) + "}") + s)) == Done([], s)
  {
    Assoc3(Indent(k), "}", s);
    SkipOne('\n', (Indent(k) + "}") + s);
    SkipIndent(k, "}" + s);
    Cut("}", s);
  }

  lemma LineEnd(more: string)
    ensures Follows(",\n" + more) && AfterComma(",\n" + more) == "\n" + more
  {
    assert ",\n" + more == "," + ("\n" + more);
    Follow("\n" + more);
  }

  lemma {:induction false} LinesRoundTrip(fields: seq<Field>, d: nat, k: nat, s: string)
    requires WfAll(fields, d)
    ensures Fields("\n" + (Lines(fields, k) + ((Indent(k) + "}") + s))) == Done(NormalAll(fields), s)
    decreases d, fields, 0
  {
    var t := (Indent(k) + "}") + s;
    if fields == [] {
      assert "" + t == t;
      LinesEnd(k, s);
    } else {
      var f, more := fields[0], Lines(fields[1..], k) + t;
      LineSplit(fields, k, t);
      LineEnd(more);
      LineOpens(f, d, k, ",\n" + more);
      ValueRoundTrip(f.value, d, k + 1, ",\n" + more);
      LineShrinks(fields, k, t);
      FieldRound("\n" + (Lines(fields, k) + t), f, d, k + 1, ",\n" + more);
      LinesRoundTrip(fields[1..], d, k, s);
    }
  }

  lemma LineShrinks(fields: seq<Field>, k: nat, t: string)
    requires fields != []
    ensures |Lines(fields[1..], k) + t| < |Lines(fields, k) + t|
  {
    LineSplit(fields, k, t);
  }

  lemma {:induction false} RowRoundTrip(fields: seq<Field>, d: nat, k: nat, s: string)
    requires fields != [] && WfAll(fields, d) && !Commented(fields)
    ensures Fields(" " + (Row(fields, k) + (" }" + s))) == Done(NormalAll(fields), s)
    decreases d, fields, 0
  {
    var f, t := fields[0], " }" + s;
    var more := " " + (Row(fields[1..], k) + t);
    var next := if |fields| == 1 then t else "," + more;
    Follow(s);
    Follow(more);
    RowSplit(fields, k, t);
    RowOpens(f, d, k, next);
    ValueRoundTrip(f.value, d, k + 1, next);
    FieldRound(" " + (Row(fields, k) + t), f, d, k + 1, next);
    if |fields| == 1 { FieldsEnd(s); } else { RowRoundTrip(fields[1..], d, k, s); }
  }

  // ----- what the normal form keeps -----

  /** Keys, order, comments and leaves are the node's own. */
  lemma {:induction false} NormalKeeps(fields: seq<Field>, i: nat)
    requires i < |fields|
    ensures NormalAll(fields)[i] == fields[i].(value := Normal(fields[i].value))
  {
    if i > 0 { NormalKeeps(fields[1..], i - 1); }
  }

  lemma {:induction false} NormalBreaks(node: Node)
    ensures Breaks(Normal(node)) == Breaks(node) && Normal(Normal(node)) == Normal(node)
    decreases node, 0
  {
    if node.Obj? { NormalAllBreaks(node.fields); }
  }

  lemma {:induction false} NormalAllBreaks(fields: seq<Field>)
    ensures BreaksAny(NormalAll(fields)) == BreaksAny(fields) && Commented(NormalAll(fields)) == Commented(fields)
    ensures NormalAll(NormalAll(fields)) == NormalAll(fields)
    decreases fields, 0
  {
    if fields != [] {
      NormalBreaks(fields[0].value);
      NormalAllBreaks(fields[1..]);
      assert NormalAll(fields)[1..] == NormalAll(fields[1..]);
    }
  }

  lemma {:induction false} NormalWf(node: Node, d: nat)
    requires Wf(node, d)
    ensures Wf(Normal(node), d)
    decreases node, 0
  {
    if node.Obj? { NormalAllWf(node.fields, d); }
  }

  lemma {:induction false} NormalAllWf(fields: seq<Field>, d: nat)
    requires WfAll(fields, d)
    ensures WfAll(NormalAll(fields), d)
    decreases fields, 0
  {
    if fields != [] {
      NormalWf(fields[0].value, d);
      NormalAllWf(fields[1..], d);
      assert NormalAll(fields)[1..] == NormalAll(fields[1..]);
      assert Normal(fields[0].value).Expr? ==> Normal(fields[0].value) == fields[0].value;
    }
  }

  /** Printing what was parsed and parsing it again changes nothing more. */
  lemma SecondRoundTrip(node: Node, d: nat, k: nat, j: nat, s: string)
    requires node.Obj? && Wf(node, d)
    ensures var parsed := Object(Emit(node, k) + s);
            parsed.Done? && Object(Emit(parsed.value, j) + s) == parsed
  {
    ObjectRoundTrip(node, d, k, s);
    NormalBreaks(node);
    NormalWf(node, d);
    ObjectRoundTrip(Normal(node), d, j, s);
  }

  /** The flags in order: set on a non-empty literal that prints on several lines, clear on any other. */
  predicate FlagsOk(node: Node)
    decreases node, 0
  {
    node.Obj? ==> node.multiline == Breaks(node) && AllFlagsOk(node.fields)
  }

  predicate AllFlagsOk(fields: seq<Field>)
    decreases fields, 0
  {
    fields != [] ==> FlagsOk(fields[0].value) && AllFlagsOk(fields[1..])
  }

  lemma {:induction false} NormalExactly(node: Node)
    ensures Normal(node) == node <==> FlagsOk(node)
    decreases node, 0
  {
    if node.Obj? { NormalAllExactly(node.fields); }
  }

  lemma HeadThenTail<T>(xs: seq<T>, ys: seq<T>)
    requires xs != [] && ys != []
    ensures xs == ys <==> xs[0] == ys[0] && xs[1..] == ys[1..]
  {
    if xs[0] == ys[0] && xs[1..] == ys[1..] { assert xs == [xs[0]] + xs[1..] && ys == [ys[0]] + ys[1..]; }
  }

  lemma {:induction false} NormalAllExactly(fields: seq<Field>)
    ensures NormalAll(fields) == fields <==> AllFlagsOk(fields)
    decreases fields, 0
  {
    if fields != [] {
      NormalExactly(fields[0].value);
      NormalAllExactly(fields[1..]);
      HeadThenTail(NormalAll(fields), fields);
      assert NormalAll(fields)[1..] == NormalAll(fields[1..]);
    }
  }

  /** The tree itself comes back exactly when its flags were in order. */
  lemma ExactRoundTrip(node: Node, d: nat, k: nat, s: string)
    requires node.Obj? && Wf(node, d)
    ensures Object(Emit(node, k) + s) == Done(node, s) <==> FlagsOk(node)
  {
    ObjectRoundTrip(node, d, k, s);
    NormalExactly(node);
  }
}
