/** The literals of the declaration rewriter: its tree, its printer, and what its parser reads off a text.
    A parsing function takes the text that is left and returns what it read with the text left after it. */
module Literals {
  import opened Wrappers

  datatype Node = Obj(fields: seq<Field>, multiline: bool) | Str(text: string) | Expr(text: string)

  /** `key` is None for a positional field; `comments` are the comment lines in front of the field. */
  datatype Field = Field(key: Option<string>, value: Node, comments: seq<string>)

  /** Raised stands for an exception, Diverged for the parser's loop that no longer advances. */
  datatype Parsed<+T> = Done(value: T, rest: string) | Raised | Diverged

  // ----- the printer -----

  function Indent(k: nat): string { if k == 0 then "" else "    " + Indent(k - 1) }

  function Head(key: Option<string>): string {
    if key.None? || key.value == "" then "" else "." + (key.value + " = ")
  }

  function CommentLines(comments: seq<string>, k: nat): string {
    if comments == [] then "" else Indent(k + 1) + (comments[0] + ("\n" + CommentLines(comments[1..], k)))
  }

  predicate Commented(fields: seq<Field>) {
    fields != [] && (fields[0].comments != [] || Commented(fields[1..]))
  }

  function Emit(node: Node, k: nat): string
    decreases node, 0
  {
    match node
    case Str(text) => text
    case Expr(text) => text
    case Obj(fields, multiline) =>
      if fields == [] then ".{}"
      else if multiline || Commented(fields) then ".{\n" + (Lines(fields, k) + (Indent(k) + "}"))
      else ".{ " + (Row(fields, k) + " }")
  }

  /** One line for each field, its comments before it. */
  function Lines(fields: seq<Field>, k: nat): string
    decreases fields, 0
  {
    if fields == [] then ""
    else
      var f := fields[0];
      CommentLines(f.comments, k)
      + (Indent(k + 1) + (Head(f.key) + (Emit(f.value, k + 1) + (",\n" + Lines(fields[1..], k)))))
  }

  function Row(fields: seq<Field>, k: nat): string
    decreases fields, 0
  {
    if fields == [] then ""
    else
      var f := fields[0];
      Head(f.key) + (Emit(f.value, k + 1) + if |fields| == 1 then "" else ", " + Row(fields[1..], k))
  }

  // ----- characters -----

  predicate Blank(c: char) { c == ' ' || c == '\t' || c == '\r' || c == '\n' }

  /** What str.strip and the \\s of a regular expression take for white space. */
  predicate Space(c: char) {
    || '\t' <= c <= '\r' || '\U{1c}' <= c <= ' ' || c == '\U{85}' || c == '\U{a0}' || c == '\U{1680}'
    || '\U{2000}' <= c <= '\U{200a}' || c == '\U{2028}' || c == '\U{2029}' || c == '\U{202f}' || c == '\U{205f}'
    || c == '\U{3000}'
  }

  predicate IdentStart(c: char) { 'A' <= c <= 'Z' || 'a' <= c <= 'z' || c == '_' }
  predicate IdentChar(c: char) { IdentStart(c) || '0' <= c <= '9' }

  predicate StartsWith(s: string, prefix: string) { prefix <= s }

  function TrimStart(s: string): (r: string)
    ensures |r| <= |s| && (r != "" ==> !Space(r[0]))
  {
    if s != "" && Space(s[0]) then TrimStart(s[1..]) else s
  }

  function TrimEnd(s: string): (r: string)
    ensures |r| <= |s| && (r != "" ==> !Space(r[|r| - 1]))
  {
    if s != "" && Space(s[|s| - 1]) then TrimEnd(s[..|s| - 1]) else s
  }

  function Strip(s: string): string { TrimEnd(TrimStart(s)) }

  // ----- the parser -----

  function LineLength(s: string): (n: nat)
    ensures n <= |s| && '\n' !in s[..n] && (n < |s| ==> s[n] == '\n')
  {
    if s == "" || s[0] == '\n' then 0 else 1 + LineLength(s[1..])
  }

  /** Skips blanks and line comments, and hands out the comments. */
  function SkipWs(s: string): (r: (seq<string>, string))
    ensures |r.1| <= |s|
    decreases |s|
  {
    if s == "" then ([], s)
    else if Blank(s[0]) then SkipWs(s[1..])
    else if StartsWith(s, "//") then
      var n := LineLength(s);
      assert n > 0;
      var (comments, rest) := SkipWs(s[n..]);
      ([Strip(s[..n])] + comments, rest)
    else ([], s)
  }

  /** The length up to and with the closing quote; None when there is none and indexing fails. */
  function StringLength(s: string): (r: Option<nat>)
    ensures r.Some? ==> 0 < r.value <= |s|
    decreases |s|
  {
    if s == "" then None
    else if s[0] == '"' then Some(1)
    else if s[0] == '\\' then
      if |s| < 2 then None
      else
        var n :- StringLength(s[2..]);
        Some(n + 2)
    else
      var n :- StringLength(s[1..]);
      Some(n + 1)
  }

  predicate Opens(c: char) { c == '(' || c == '[' || c == '{' }
  predicate Closes(c: char) { c == ')' || c == ']' || c == '}' }

  /** How far a bare expression reaches: to the comma or the closing bracket it does not contain itself. */
  function BareLength(s: string, depth: nat): (r: Option<nat>)
    ensures r.Some? ==> r.value <= |s|
    decreases |s|
  {
    if s == "" || (depth == 0 && (Closes(s[0]) || s[0] == ',')) then Some(0)
    else if s[0] == '"' then
      var q :- StringLength(s[1..]);
      var n :- BareLength(s[1 + q..], depth);
      Some(1 + q + n)
    else
      var n :- BareLength(s[1..], if Opens(s[0]) then depth + 1 else if Closes(s[0]) then depth - 1 else depth);
      Some(1 + n)
  }

  function IdentLength(s: string): (n: nat)
    ensures n <= |s| && (n < |s| ==> !IdentChar(s[n])) && forall i | 0 <= i < n :: IdentChar(s[i])
  {
    if s == "" || !IdentChar(s[0]) then 0 else 1 + IdentLength(s[1..])
  }

  function SpaceLength(s: string): (n: nat)
    ensures n <= |s| && (n < |s| ==> !Space(s[n])) && forall i | 0 <= i < n :: Space(s[i])
  {
    if s == "" || !Space(s[0]) then 0 else 1 + SpaceLength(s[1..])
  }

  function QuoteIndex(s: string): (n: nat)
    ensures n <= |s| && (n < |s| ==> s[n] == '"') && '"' !in s[..n]
  {
    if s == "" || s[0] == '"' then 0 else 1 + QuoteIndex(s[1..])
  }

  /** A quoted name @"..." that is not empty, or an identifier. */
  function NameLength(s: string): (r: Option<nat>)
    ensures r.Some? ==> 0 < r.value <= |s|
  {
    if StartsWith(s, "@\"") then
      var n := QuoteIndex(s[2..]);
      if 0 < n < |s| - 2 then Some(n + 3) else None
    else if s != "" && IdentStart(s[0]) then Some(IdentLength(s))
    else None
  }

  /** Spaces and an equals sign that is not doubled: the text after the sign. */
  function AfterEquals(t: string): (r: Option<string>)
    ensures r.Some? ==> |r.value| < |t|
  {
    var u := t[SpaceLength(t)..];
    if StartsWith(u, "=") && !StartsWith(u[1..], "=") then Some(u[1..]) else None
  }

  /** A dot, a name and an equals sign: the name, and the text after the sign. */
  function KeyAt(s: string): (r: Option<(string, string)>)
    ensures r.Some? ==> |r.value.1| < |s|
  {
    if !StartsWith(s, ".") then None
    else
      var n :- NameLength(s[1..]);
      var rest :- AfterEquals(s[1 + n..]);
      Some((s[1..1 + n], rest))
  }

  /** The key a field starts with, if any, and the text its value starts at. */
  function KeyOf(s: string): (r: (Option<string>, string))
    ensures |r.1| <= |s|
  {
    match KeyAt(s)
    case None => (None, s)
    case Some((key, rest)) => (Some(key), SkipWs(rest).1)
  }

  function Value(s: string): (r: Parsed<Node>)
    ensures r.Done? ==> |r.rest| <= |s|
    decreases |s|, 1
  {
    if StartsWith(s, ".{") then Object(s)
    else if StartsWith(s, "\"") then
      match StringLength(s[1..])
      case None => Raised
      case Some(n) => Done(Str(s[..1 + n]), s[1 + n..])
    else if StartsWith(s, "&.{") then
      match Object(s[1..])
      case Done(node, rest) => Done(Expr("&" + Emit(node, 0)), rest)
      case Raised => Raised
      case Diverged => Diverged
    else
      match BareLength(s, 0)
      case None => Raised
      case Some(n) => Done(Expr(Strip(s[..n])), s[n..])
  }

  function AfterComma(s: string): (r: string)
    ensures |r| <= |s|
  {
    var t := SkipWs(s).1;
    if StartsWith(t, ",") then t[1..] else t
  }

  function Prepend(fields: seq<Field>, r: Parsed<seq<Field>>): Parsed<seq<Field>> {
    match r
    case Done(more, rest) => Done(fields + more, rest)
    case Raised => Raised
    case Diverged => Diverged
  }

  /** The fields up to the closing brace.  A round that consumes nothing is repeated for ever. */
  function Fields(s: string): (r: Parsed<seq<Field>>)
    ensures r.Done? ==> |r.rest| <= |s|
    decreases |s|, 2
  {
    var (comments, t) := SkipWs(s);
    if StartsWith(t, "}") then Done([], t[1..])
    else
      var (key, u) := KeyOf(t);
      match Value(u)
      case Raised => Raised
      case Diverged => Diverged
      case Done(value, v) =>
        var next := AfterComma(v);
        if |next| == |s| then Diverged else Prepend([Field(key, value, comments)], Fields(next))
  }

  function Object(s: string): (r: Parsed<Node>)
    ensures r.Done? ==> |r.rest| < |s| && r.value.Obj?
    decreases |s|, 0
  {
    if !StartsWith(s, ".{") then Raised
    else
      match Fields(s[2..])
      case Raised => Raised
      case Diverged => Diverged
      case Done(fields, rest) => Done(Obj(fields, '\n' in s[..|s| - |rest|]), rest)
  }
}
