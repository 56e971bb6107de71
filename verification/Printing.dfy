/** How a printed literal looks: the spaces, commas and line breaks that the parser does not ask for. */
module Printing {
  import opened Wrappers
  import opened Literals

  /** Four spaces for each level. */
  lemma {:induction false} IndentIs(k: nat)
    ensures |Indent(k)| == 4 * k && forall c | c in Indent(k) :: c == ' '
  {
    if k > 0 { IndentIs(k - 1); }
  }

  predicate Leaf(v: Node) { !v.Obj? }

  function KeyText(f: Field): string { if f.key.None? || f.key.value == "" then "" else "." + f.key.value + " = " }

  /** On one line: a space inside the braces, a comma and a space between the fields, none behind the last. */
  lemma RowLooks(f: Field, g: Field, k: nat)
    requires Leaf(f.value) && Leaf(g.value) && f.comments == g.comments == []
    ensures Emit(Obj([f, g], false), k)
            == ".{ " + KeyText(f) + f.value.text + ", " + KeyText(g) + g.value.text + " }"
  {
    assert [f, g][1..] == [g] && [g][1..] == [];
    assert !Commented([g]) && [f, g][0] == f && Commented([f, g]) == Commented([f, g][1..]);
    assert Row([g], k) == Head(g.key) + (g.value.text + "");
    assert Row([f, g], k) == Head(f.key) + (f.value.text + (", " + Row([g], k)));
    assert ".{ " + (Head(f.key) + (f.value.text + (", " + (Head(g.key) + (g.value.text + "")))) + " }")
        == ".{ " + Head(f.key) + f.value.text + ", " + Head(g.key) + g.value.text + " }";
    assert KeyText(f) == Head(f.key) && KeyText(g) == Head(g.key);
  }

  /** On several: each comment and each field on a line of its own, one level in, a comma behind every field, and
      the closing brace at the level of the literal. */
  lemma LinesLooks(f: Field, c: string, k: nat, multiline: bool)
    requires Leaf(f.value) && f.comments == [c]
    ensures Emit(Obj([f], multiline), k)
            == ".{\n" + Indent(k + 1) + c + "\n" + Indent(k + 1) + KeyText(f) + f.value.text + ",\n" + Indent(k) + "}"
  {
    var i := Indent(k + 1);
    CommentLooks(c, k);
    LineLooks(f, c, k);
    Flat(i, c, KeyText(f), f.value.text, Indent(k));
    assert [f][0] == f && Commented([f]);
  }

  lemma CommentLooks(c: string, k: nat)
    ensures CommentLines([c], k) == Indent(k + 1) + (c + "\n")
  {
    assert [c][1..] == [] && "\n" + "" == "\n";
  }

  lemma LineLooks(f: Field, c: string, k: nat)
    requires Leaf(f.value) && f.comments == [c]
    ensures Lines([f], k) == (Indent(k + 1) + (c + "\n")) + (Indent(k + 1) + (KeyText(f) + (f.value.text + ",\n")))
  {
    CommentLooks(c, k);
    assert [f][1..] == [] && [f][0] == f && ",\n" + "" == ",\n" && KeyText(f) == Head(f.key);
  }

  lemma Flat(i: string, c: string, key: string, v: string, close: string)
    ensures ".{\n" + (((i + (c + "\n")) + (i + (key + (v + ",\n")))) + (close + "}"))
            == ".{\n" + i + c + "\n" + i + key + v + ",\n" + close + "}"
  {}

  /** A literal is printed on several lines exactly when it was read so or one of its fields has comments. */
  lemma SeveralLinesWhen(fields: seq<Field>, multiline: bool, k: nat)
    requires fields != []
    ensures StartsWith(Emit(Obj(fields, multiline), k), ".{\n") <==>
            multiline || exists f | f in fields :: f.comments != []
    ensures Emit(Obj([], multiline), k) == ".{}"
  {
    CommentedIs(fields);
    var e := Emit(Obj(fields, multiline), k);
    assert e[2] == if multiline || Commented(fields) then '\n' else ' ';
  }

  lemma {:induction false} CommentedIs(fields: seq<Field>)
    ensures Commented(fields) <==> exists f | f in fields :: f.comments != []
  {
    if fields != [] { CommentedIs(fields[1..]); }
  }
}
