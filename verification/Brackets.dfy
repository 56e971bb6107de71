/** The bracket matcher of the research script: one loop that recurses at every opening bracket. */
module Brackets {
  import opened Wrappers
  import opened Literals
  import opened Positions
  import R = LiteralRoundTrip

  function Partner(open: char): char { if open == '(' then ')' else if open == '{' then '}' else ']' }

  /** How many characters the loop passes in one round: a string, a comment with its line end, a group, or
      one character; None for an exception. */
  function Skip(t: string): (r: Option<nat>)
    requires t != ""
    ensures r.Some? ==> 0 < r.value <= |t|
    decreases |t|, 0
  {
    if t[0] == '"' then Plus(1, StringLength(t[1..]))
    else if StartsWith(t, "//") then if LineLength(t) == |t| then None else Some(LineLength(t) + 1)
    else if Opens(t[0]) then Plus(1, Close(t[1..], Partner(t[0])))
    else Some(1)
  }

  /** How many characters of t it takes to reach the closing bracket `end` with it; None for an exception.
      A closing bracket starts no string, comment or group, so it does not matter which test comes first. */
  function Close(t: string, end: char): (r: Option<nat>)
    ensures r.Some? ==> 0 < r.value <= |t|
    decreases |t|, 1
  {
    if t == "" then None
    else if t[0] == end then Some(1)
    else
      var n :- Skip(t);
      Plus(n, Close(t[n..], end))
  }

  // ----- one round of the loop -----

  lemma CloseStep(t: string, end: char, n: nat)
    requires t != "" && t[0] != end && Skip(t) == Some(n)
    ensures Close(t, end) == Plus(n, Close(t[n..], end))
  {}

  lemma CloseFails(t: string, end: char)
    requires t == "" || (t[0] != end && Skip(t).None?)
    ensures Close(t, end).None?
  {}

  /** What is found when the loop stands at i, counted from behind `start`. */
  function Found(text: string, start: nat, i: nat, end: char): Option<nat>
    requires start < i <= |text|
  {
    Plus(i - start - 1, Close(text[i..], end))
  }

  /** A round that passes the text from i to j leaves the rest to the next rounds. */
  lemma RoundKeeps(text: string, start: nat, i: nat, j: nat, end: char)
    requires start < i <= j < |text| && text[i] != end && Skip(text[i..]) == Some(j + 1 - i)
    ensures Found(text, start, j + 1, end) == Found(text, start, i, end)
  {
    var n, rest := j + 1 - i, Close(text[j + 1..], end);
    Later(text, i, n);
    CloseStep(text[i..], end, n);
    PlusPlus(i - start - 1, n, rest);
    assert Found(text, start, i, end) == Plus(i - start - 1, Plus(n, rest));
  }

  lemma RoundFails(text: string, start: nat, i: nat, end: char)
    requires start < i < |text| && text[i] != end && Skip(text[i..]).None?
    ensures Found(text, start, i, end).None?
  {
    CloseFails(text[i..], end);
  }

  lemma RoundEnds(text: string, start: nat, i: nat, end: char)
    requires start < i < |text| && text[i] == end
    ensures Found(text, start, i, end) == Some(i - start)
  {}

  lemma SkipString(text: string, i: nat, quote: Option<nat>)
    requires i < |text| && text[i] == '"' && (quote.Some? ==> i < quote.value)
    requires StringLength(text[i + 1..]) == if quote.None? then None else Some(quote.value - i)
    ensures Skip(text[i..]) == if quote.None? then None else Some(quote.value + 1 - i)
  {
    Later(text, i, 1);
  }

  lemma SkipGroup(text: string, i: nat, inner: Option<nat>)
    requires i < |text| && Opens(text[i]) && (inner.Some? ==> i < inner.value)
    requires Close(text[i + 1..], Partner(text[i])) == if inner.None? then None else Some(inner.value - i)
    ensures Skip(text[i..]) == if inner.None? then None else Some(inner.value + 1 - i)
  {
    Later(text, i, 1);
  }

  lemma SkipComment(t: string)
    requires StartsWith(t, "//")
    ensures Skip(t) == if LineLength(t) == |t| then None else Some(LineLength(t) + 1)
  {
    assert t[0] == '/';
  }

  lemma SkipChar(t: string)
    requires t != "" && t[0] != '"' && !Opens(t[0]) && !StartsWith(t, "//")
    ensures Skip(t) == Some(1)
  {}

  /** The last position of what the loop passes at i, where no partner stands: the closing quote, the end of
      the line, the closing bracket, or i itself. */
  method Pass(text: string, i: nat) returns (last: Option<nat>)
    requires i < |text|
    ensures Skip(text[i..]) == if last.None? then None else Some(last.value + 1 - i)
    ensures last.Some? ==> i <= last.value < |text|
    decreases |text| - i, 1
  {
    if text[i] == '"' {
      last := StringEnd(text, i + 1);
      SkipString(text, i, last);
    } else if StartsWith(text[i..], "//") {
      SkipComment(text[i..]);
      var j := i + LineLength(text[i..]);
      return if j == |text| then None else Some(j);
    } else if Opens(text[i]) {
      last := Closing(text, i);
      SkipGroup(text, i, last);
    } else {
      SkipChar(text[i..]);
      return Some(i);
    }
  }

  /** The position of the bracket that closes the one at `start`. */
  method Closing(text: string, start: nat) returns (at: Option<nat>)
    requires start < |text| && Opens(text[start])
    ensures Close(text[start + 1..], Partner(text[start])) == if at.None? then None else Some(at.value - start)
    ensures at.Some? ==> start < at.value < |text| && text[at.value] == Partner(text[start])
    ensures at.Some? ==>
              || (text[start] == '(' && text[at.value] == ')')
              || (text[start] == '[' && text[at.value] == ']')
              || (text[start] == '{' && text[at.value] == '}')
    decreases |text| - start, 0
  {
    var end, i := Partner(text[start]), start + 1;
    ghost var goal := Close(text[start + 1..], end);
    while i < |text|
      invariant start < i <= |text| && Found(text, start, i, end) == goal
    {
      if text[i] == end {
        RoundEnds(text, start, i, end);
        return Some(i);
      }
      var last := Pass(text, i);
      if last.None? {
        RoundFails(text, start, i, end);
        return None;
      }
      RoundKeeps(text, start, i, last.value, end);
      i := last.value + 1;
    }
    return None;
  }

  // ----- well-bracketed text -----

  /** Ordinary characters, strings with escapes, comments to the end of the line, and groups. */
  datatype Item = Plain(c: char) | Quoted(text: string) | Remark(text: string) | Group(open: char, items: seq<Item>)

  function Render(item: Item): string
    decreases item, 0
  {
    match item
    case Plain(c) => [c]
    case Quoted(text) => "\"" + (text + "\"")
    case Remark(text) => "//" + (text + "\n")
    case Group(open, items) => [open] + (RenderAll(items) + [Partner(open)])
  }

  function RenderAll(items: seq<Item>): string
    decreases items, 0
  {
    if items == [] then "" else Render(items[0]) + RenderAll(items[1..])
  }

  predicate Wf(item: Item)
    decreases item, 0
  {
    match item
    case Plain(c) => c != '"' && !Opens(c) && !Closes(c)
    case Quoted(text) => StringLength(text + "\"") == Some(|text| + 1)
    case Remark(text) => '\n' !in text
    case Group(open, items) => Opens(open) && WfAll(items)
  }

  /** A slash is not followed by what would turn it into a comment. */
  predicate WfAll(items: seq<Item>)
    decreases items, 0
  {
    items != [] ==>
      && Wf(items[0]) && WfAll(items[1..])
      && (items[0] == Plain('/') && |items| > 1 ==> items[1] != Plain('/') && !items[1].Remark?)
  }

  lemma QuotedCloses(text: string, s: string)
    requires Wf(Quoted(text))
    ensures Skip(Render(Quoted(text)) + s) == Some(|text| + 2)
  {
    var body := text + "\"";
    R.Assoc3("\"", body, s);
    R.Cut("\"", body + s);
    R.StringLocal(body, s);
    assert ("\"" + (body + s))[0] == '"';
  }

  lemma RemarkCloses(text: string, s: string)
    requires Wf(Remark(text))
    ensures Skip(Render(Remark(text)) + s) == Some(|text| + 3)
  {
    var c := "//" + text;
    R.Assoc3("//", text + "\n", s);
    R.Assoc3(text, "\n", s);
    R.Assoc3("//", text, "\n" + s);
    R.LineLengthIs(c, s);
    var t := c + ("\n" + s);
    assert t[0] == '/' && t[1] == '/';
    SkipComment(t);
  }

  lemma PlainCloses(c: char, s: string)
    requires Wf(Plain(c)) && !(c == '/' && StartsWith(s, "/"))
    ensures Skip(Render(Plain(c)) + s) == Some(1)
  {
    var t := [c] + s;
    if s != "" { assert t[1] == s[0]; }
    SkipChar(t);
  }

  lemma GroupCloses(open: char, body: string, s: string)
    requires Opens(open) && Close(body + s, Partner(open)) == Some(|body|)
    ensures Skip(([open] + body) + s) == Some(|body| + 1)
  {
    R.Assoc3([open], body, s);
    R.Cut([open], body + s);
    var t := [open] + (body + s);
    assert t[0] == open && !StartsWith(t, "//");
  }

  /** Every item of a well-bracketed text is passed as a whole. */
  lemma {:induction false} ItemPasses(item: Item, s: string)
    requires Wf(item) && !(item == Plain('/') && StartsWith(s, "/"))
    ensures Skip(Render(item) + s) == Some(|Render(item)|)
    decreases item, 1
  {
    match item
    case Plain(c) => PlainCloses(c, s);
    case Quoted(text) => QuotedCloses(text, s);
    case Remark(text) => RemarkCloses(text, s);
    case Group(open, items) =>
      PartnerFound(items, open, s);
      R.Assoc3(RenderAll(items), [Partner(open)], s);
      GroupCloses(open, RenderAll(items) + [Partner(open)], s);
  }

  lemma FirstItem(item: Item, end: char, rest: string)
    requires Wf(item) && Closes(end) && Skip(Render(item) + rest) == Some(|Render(item)|)
    ensures Close(Render(item) + rest, end) == Plus(|Render(item)|, Close(rest, end))
  {
    var r := Render(item);
    assert r != "" && r[0] != end;
    assert (r + rest)[0] == r[0];
    R.Cut(r, rest);
    CloseStep(r + rest, end, |r|);
  }

  lemma EndFound(end: char, s: string)
    requires Closes(end)
    ensures Close([end] + s, end) == Some(1)
  {
    assert ([end] + s)[0] == end;
  }

  lemma NextItem(items: seq<Item>, end: char, rest: string)
    requires WfAll(items) && items != [] && Closes(end)
    requires Skip(Render(items[0]) + (RenderAll(items[1..]) + rest)) == Some(|Render(items[0])|)
    ensures Close(RenderAll(items) + rest, end)
            == Plus(|Render(items[0])|, Close(RenderAll(items[1..]) + rest, end))
  {
    R.Assoc3(Render(items[0]), RenderAll(items[1..]), rest);
    FirstItem(items[0], end, RenderAll(items[1..]) + rest);
  }

  /** The matcher returns the partner: the bracket behind the items, whatever follows it. */
  lemma {:induction false} PartnerFound(items: seq<Item>, open: char, s: string)
    requires WfAll(items) && Opens(open)
    ensures Close(RenderAll(items) + ([Partner(open)] + s), Partner(open)) == Some(|RenderAll(items)| + 1)
    decreases items, 1
  {
    var end := Partner(open);
    var rest := [end] + s;
    if items == [] {
      EndFound(end, s);
      assert "" + rest == rest;
    } else {
      NoSlash(items, rest);
      ItemPasses(items[0], RenderAll(items[1..]) + rest);
      NextItem(items, end, rest);
      PartnerFound(items[1..], open, s);
    }
  }

  lemma RenderStarts(item: Item)
    requires Wf(item) && item != Plain('/') && !item.Remark?
    ensures Render(item) != "" && Render(item)[0] != '/'
  {}

  lemma FirstOf(a: string, b: string, c: string)
    requires a != "" && a[0] != '/'
    ensures !StartsWith((a + b) + c, "/")
  {
    assert ((a + b) + c)[0] == a[0];
  }

  lemma NoSlash(items: seq<Item>, rest: string)
    requires WfAll(items) && items != [] && rest != "" && rest[0] != '/'
    ensures !(items[0] == Plain('/') && StartsWith(RenderAll(items[1..]) + rest, "/"))
  {
    var next := items[1..];
    if items[0] == Plain('/') {
      if next == [] {
        assert RenderAll(next) + rest == rest;
      } else {
        assert next[0] == items[1] && Wf(next[0]);
        RenderStarts(next[0]);
        FirstOf(Render(next[0]), RenderAll(next[1..]), rest);
      }
    }
  }
}
