/** What the parser's scanners recognise, told without scanning: strings, keys, stripped text, and the blanks
    and comments between tokens. */
module Lexing {
  import opened Wrappers
  import opened Literals

  // ----- strings -----

  /** The inside of a string: characters other than a quote or a backslash, and backslashes each with the
      character behind it. */
  predicate Body(x: string)
    decreases |x|
  {
    || x == ""
    || (x[0] == '\\' && |x| > 1 && Body(x[2..]))
    || (x[0] != '\\' && x[0] != '"' && Body(x[1..]))
  }

  /** Behind its opening quote a string reaches to the first quote with a body in front of it. */
  lemma {:induction false} StringExactly(s: string, n: nat)
    ensures StringLength(s) == Some(n) <==> 0 < n <= |s| && s[n - 1] == '"' && Body(s[..n - 1])
    decreases |s|
  {
    if s != "" && s[0] == '\\' {
      if |s| > 1 { EscapeLength(s, n); }
    } else if s != "" && s[0] != '"' {
      PlainLength(s, n);
    }
  }

  lemma {:induction false} EscapeLength(s: string, n: nat)
    requires |s| > 1 && s[0] == '\\'
    ensures StringLength(s) == Some(n) <==> 0 < n <= |s| && s[n - 1] == '"' && Body(s[..n - 1])
    decreases |s|, 0
  {
    if n > 2 {
      StringExactly(s[2..], n - 2);
      if n <= |s| { assert s[..n - 1][2..] == s[2..][..n - 3]; }
    } else {
      StringExactly(s[2..], 0);
    }
  }

  lemma {:induction false} PlainLength(s: string, n: nat)
    requires s != "" && s[0] != '\\' && s[0] != '"'
    ensures StringLength(s) == Some(n) <==> 0 < n <= |s| && s[n - 1] == '"' && Body(s[..n - 1])
    decreases |s|, 0
  {
    if n > 1 {
      StringExactly(s[1..], n - 1);
      if n <= |s| { assert s[..n - 1][1..] == s[1..][..n - 2]; }
    } else {
      StringExactly(s[1..], 0);
    }
  }

  // ----- keys -----

  /** An identifier, or a name in quotes that is not empty. */
  predicate IsName(key: string) {
    || (key != "" && IdentStart(key[0]) && forall c | c in key :: IdentChar(c))
    || (|key| > 3 && StartsWith(key, "@\"") && key[|key| - 1] == '"' && '"' !in key[2..|key| - 1])
  }

  predicate AllSpace(x: string) { forall c | c in x :: Space(c) }

  lemma {:induction false} IdentOf(key: string, s: string)
    requires (forall c | c in key :: IdentChar(c)) && (s == "" || !IdentChar(s[0]))
    ensures IdentLength(key + s) == |key|
  {
    if key == "" {
      assert key + s == s;
    } else {
      assert (key + s)[1..] == key[1..] + s;
      IdentOf(key[1..], s);
    }
  }

  lemma {:induction false} QuoteOf(name: string, s: string)
    requires '"' !in name && s != "" && s[0] == '"'
    ensures QuoteIndex(name + s) == |name|
  {
    if name == "" {
      assert name + s == s;
    } else {
      assert (name + s)[1..] == name[1..] + s;
      QuoteOf(name[1..], s);
    }
  }

  lemma {:induction false} SpaceOf(x: string, s: string)
    requires AllSpace(x) && (s == "" || !Space(s[0]))
    ensures SpaceLength(x + s) == |x|
  {
    if x == "" {
      assert x + s == s;
    } else {
      assert (x + s)[1..] == x[1..] + s;
      SpaceOf(x[1..], s);
    }
  }

  lemma NameOfText(key: string, s: string)
    requires IsName(key) && s != "" && (Space(s[0]) || s[0] == '=')
    ensures NameLength(key + s) == Some(|key|)
  {
    var t := key + s;
    assert t[0] == key[0];
    if IdentStart(key[0]) {
      IdentOf(key, s);
      assert !StartsWith(t, "@\"");
    } else {
      var name, tail := key[2..|key| - 1], "\"" + s;
      assert key == "@\"" + (name + "\"");
      assert t == "@\"" + (name + tail) && t[2..] == name + tail;
      assert StartsWith(t, "@\"");
      QuoteOf(name, tail);
    }
  }

  /** The text is a dot, a name, white space, one equals sign, and what the value is read from. */
  predicate Keyed(s: string, key: string, space: string, rest: string) {
    IsName(key) && AllSpace(space) && !StartsWith(rest, "=") && s == "." + (key + (space + ("=" + rest)))
  }

  lemma EqualsOf(space: string, rest: string)
    requires AllSpace(space) && !StartsWith(rest, "=")
    ensures AfterEquals(space + ("=" + rest)) == Some(rest)
  {
    var t := "=" + rest;
    SpaceOf(space, t);
    assert (space + t)[|space|..] == t && t[1..] == rest;
  }

  lemma EqualsSplit(t: string) returns (space: string)
    requires AfterEquals(t).Some?
    ensures AllSpace(space) && t == space + ("=" + AfterEquals(t).value) && !StartsWith(AfterEquals(t).value, "=")
  {
    var k := SpaceLength(t);
    space := t[..k];
    assert t == space + t[k..] && t[k..] == "=" + t[k..][1..];
  }

  lemma Cuts(key: string, tail: string)
    ensures var s := "." + (key + tail);
            s[1..] == key + tail && s[1..1 + |key|] == key && s[1 + |key|..] == tail
  {}

  lemma KeyedIsRead(s: string, key: string, space: string, rest: string)
    requires Keyed(s, key, space, rest)
    ensures KeyAt(s) == Some((key, rest))
  {
    var tail := space + ("=" + rest);
    assert tail[0] == if space == "" then '=' else space[0];
    assert space != "" ==> space[0] in space;
    NameOfText(key, tail);
    Cuts(key, tail);
    EqualsOf(space, rest);
  }

  lemma NameIsName(s: string)
    requires NameLength(s).Some?
    ensures IsName(s[..NameLength(s).value])
  {
    var n := NameLength(s).value;
    if StartsWith(s, "@\"") {
      var q := QuoteIndex(s[2..]);
      assert n == q + 3 && s[..n][2..n - 1] == s[2..][..q] && s[n - 1] == s[2..][q];
    }
  }

  lemma ReadIsKeyed(s: string) returns (space: string)
    requires KeyAt(s).Some?
    ensures Keyed(s, KeyAt(s).value.0, space, KeyAt(s).value.1)
  {
    var n := NameLength(s[1..]).value;
    NameIsName(s[1..]);
    Pieces(s, n);
    space := EqualsSplit(s[1 + n..]);
  }

  lemma Pieces(s: string, n: nat)
    requires StartsWith(s, ".") && 1 + n <= |s|
    ensures s == "." + (s[1..1 + n] + s[1 + n..]) && s[1..][..n] == s[1..1 + n]
  {
    assert s[0] == '.';
  }

  /** A key is read exactly where a dot, a name, white space and an equals sign that is not doubled stand. */
  lemma KeyExactly(s: string, key: string, rest: string)
    ensures KeyAt(s) == Some((key, rest)) <==> exists space :: Keyed(s, key, space, rest)
  {
    if KeyAt(s) == Some((key, rest)) { var space := ReadIsKeyed(s); }
    if space :| Keyed(s, key, space, rest) { KeyedIsRead(s, key, space, rest); }
  }

  // ----- stripped text -----

  lemma {:induction false} TrimStartIs(s: string) returns (a: string)
    ensures s == a + TrimStart(s) && AllSpace(a)
  {
    if s != "" && Space(s[0]) {
      var rest := TrimStartIs(s[1..]);
      a := [s[0]] + rest;
      assert [s[0]] + (rest + TrimStart(s[1..])) == a + TrimStart(s[1..]);
      assert s == [s[0]] + s[1..];
    } else {
      a := "";
      assert s == "" + s;
    }
  }

  lemma {:induction false} TrimEndIs(s: string) returns (b: string)
    ensures s == TrimEnd(s) + b && AllSpace(b)
  {
    if s != "" && Space(s[|s| - 1]) {
      var rest := TrimEndIs(s[..|s| - 1]);
      b := rest + [s[|s| - 1]];
      assert (TrimEnd(s[..|s| - 1]) + rest) + [s[|s| - 1]] == TrimEnd(s[..|s| - 1]) + b;
      assert s == s[..|s| - 1] + [s[|s| - 1]];
    } else {
      b := "";
      assert s == s + "";
    }
  }

  /** Strip takes white space off both ends and nothing else. */
  lemma StripExactly(s: string) returns (a: string, b: string)
    ensures s == a + (Strip(s) + b) && AllSpace(a) && AllSpace(b)
    ensures Strip(s) != "" ==> !Space(Strip(s)[0]) && !Space(Strip(s)[|Strip(s)| - 1])
  {
    a := TrimStartIs(s);
    b := TrimEndIs(TrimStart(s));
    var t := TrimStart(s);
    if Strip(s) != "" { assert Strip(s)[0] == t[0]; }
  }

  // ----- between tokens -----

  /** What may stand between tokens: a blank, or a comment up to its line break or the end of the text. */
  datatype Gap = White(c: char) | Remark(text: string)

  function GapText(g: Gap): string { if g.White? then [g.c] else g.text }

  function GapsText(gs: seq<Gap>): string { if gs == [] then "" else GapText(gs[0]) + GapsText(gs[1..]) }

  function Remarks(gs: seq<Gap>): seq<string> {
    if gs == [] then [] else (if gs[0].Remark? then [Strip(gs[0].text)] else []) + Remarks(gs[1..])
  }

  /** The gaps in front of `rest`: a comment holds no line break and runs up to one, or to the end. */
  predicate GapsOk(gs: seq<Gap>, rest: string) {
    gs != [] ==>
      && GapsOk(gs[1..], rest)
      && match gs[0]
         case White(c) => Blank(c)
         case Remark(text) =>
           var more := GapsText(gs[1..]) + rest;
           StartsWith(text, "//") && '\n' !in text && (more == "" || more[0] == '\n')
  }

  predicate Token(rest: string) { rest == "" || (!Blank(rest[0]) && !StartsWith(rest, "//")) }

  lemma {:induction false} LineOf(text: string, more: string)
    requires '\n' !in text && (more == "" || more[0] == '\n')
    ensures LineLength(text + more) == |text|
  {
    if text == "" {
      assert text + more == more;
    } else {
      assert (text + more)[1..] == text[1..] + more;
      LineOf(text[1..], more);
    }
  }

  lemma RemarkSkipped(text: string, more: string)
    requires StartsWith(text, "//") && '\n' !in text && (more == "" || more[0] == '\n')
    ensures SkipWs(text + more) == ([Strip(text)] + SkipWs(more).0, SkipWs(more).1)
  {
    var t := text + more;
    LineOf(text, more);
    assert t[0] == '/' && StartsWith(t, "//") && t[..|text|] == text && t[|text|..] == more;
  }

  /** Whatever blanks and comments stand in front of a token, they are skipped, all of them, and the comments
      handed out stripped and in order. */
  lemma {:induction false} SkipExactly(gs: seq<Gap>, rest: string)
    requires GapsOk(gs, rest) && Token(rest)
    ensures SkipWs(GapsText(gs) + rest) == (Remarks(gs), rest)
  {
    if gs == [] {
      assert "" + rest == rest;
    } else {
      var more := GapsText(gs[1..]) + rest;
      SkipExactly(gs[1..], rest);
      assert GapsText(gs) + rest == GapText(gs[0]) + more;
      match gs[0]
      case White(c) => assert ([c] + more)[1..] == more; assert [] + Remarks(gs[1..]) == Remarks(gs[1..]);
      case Remark(text) => RemarkSkipped(text, more);
    }
  }

  /** And every text begins that way. */
  lemma {:induction false} GapsOf(s: string) returns (gs: seq<Gap>, rest: string)
    ensures s == GapsText(gs) + rest && GapsOk(gs, rest) && Token(rest)
    decreases |s|
  {
    if s != "" && Blank(s[0]) {
      gs, rest := GapsOf(s[1..]);
      gs := GapAdded(White(s[0]), gs, rest);
      assert s == [s[0]] + s[1..];
    } else if StartsWith(s, "//") {
      var n := LineLength(s);
      LineStarts(s);
      gs, rest := GapsOf(s[n..]);
      gs := GapAdded(Remark(s[..n]), gs, rest);
    } else {
      gs, rest := [], s;
      assert s == "" + s;
    }
  }

  lemma LineStarts(s: string)
    requires StartsWith(s, "//")
    ensures LineLength(s) >= 2 && StartsWith(s[..LineLength(s)], "//")
    ensures s == s[..LineLength(s)] + s[LineLength(s)..]
    ensures s[LineLength(s)..] == "" || s[LineLength(s)..][0] == '\n'
  {
    TwoSlashes(s);
    var n := LineLength(s);
    assert s[..n][..2] == "//";
    assert s == s[..n] + s[n..];
  }

  lemma TwoSlashes(s: string)
    requires StartsWith(s, "//")
    ensures LineLength(s) >= 2 && s[..2] == "//"
  {
    assert s[0] == '/' && s[1] == '/' && s[1..][0] == '/';
    assert LineLength(s) == 1 + LineLength(s[1..]);
  }

  lemma GapAdded(g: Gap, gs: seq<Gap>, rest: string) returns (r: seq<Gap>)
    requires GapsOk(gs, rest)
    requires match g
             case White(c) => Blank(c)
             case Remark(text) =>
               var more := GapsText(gs) + rest;
               StartsWith(text, "//") && '\n' !in text && (more == "" || more[0] == '\n')
    ensures GapsOk(r, rest) && GapsText(r) + rest == GapText(g) + (GapsText(gs) + rest)
  {
    r := [g] + gs;
    assert r[1..] == gs;
    assert (GapText(g) + GapsText(gs)) + rest == GapText(g) + (GapsText(gs) + rest);
  }
}
