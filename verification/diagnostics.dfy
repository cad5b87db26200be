/**
  What a rule hands to `context.report`: the node or comment the finding is
  attached to, either a message id (looked up in the rule's `meta.messages`)
  or a literal message, and the data record used to fill the template's
  `{{key}}` placeholders.  A handler's reports are returned as a sequence in
  the order `report` was called.
 */
module Diagnostics {
  import opened Estree

  datatype Target = AtNode(node: Node) | AtComment(comment: Comment)

  datatype Message = MessageId(id: string) | MessageText(text: string)

  datatype Diagnostic = Diagnostic(target: Target, message: Message, data: map<string, string>)

  /** A message template, split at its `{{key}}` placeholders. */
  datatype Piece = Text(text: string) | Placeholder(key: string)

  type Template = seq<Piece>

  /** The template as it is written in a rule's `meta.messages`. */
  function Source(t: Template): string
  {
    if t == [] then []
    else
      (match t[0]
       case Text(s) => s
       case Placeholder(k) => "{{" + k + "}}")
      + Source(t[1..])
  }

  /** The text one piece becomes when the template is filled from `data`;
      a placeholder whose key is absent from `data` stays as written. */
  function FillPiece(p: Piece, data: map<string, string>): (r: string)
    ensures p.Text? ==> r == p.text
    ensures p.Placeholder? && p.key in data ==> r == data[p.key]
    ensures p.Placeholder? && p.key !in data ==> r == Source([p])
  {
    match p
    case Text(s) => s
    case Placeholder(k) =>
      assert Source([p]) == "{{" + k + "}}" + Source([]);
      if k in data then data[k] else "{{" + k + "}}"
  }

  /** A template without placeholders fills to its own text, whatever the data. */
  function Fill(t: Template, data: map<string, string>): (r: string)
    ensures (forall j :: 0 <= j < |t| ==> t[j].Text?) ==> r == Source(t)
  {
    if t == [] then [] else FillPiece(t[0], data) + Fill(t[1..], data)
  }

  /** Filling proceeds piece by piece from the front. */
  lemma FillCons(t: Template, data: map<string, string>)
    requires t != []
    ensures Fill(t, data) == FillPiece(t[0], data) + Fill(t[1..], data)
  {
  }

  /** `x` occurs in `s` starting at position `i`. */
  predicate OccursAt(s: string, x: string, i: int)
  {
    0 <= i <= |s| - |x| && s[i..i + |x|] == x
  }

  ghost predicate Contains(s: string, x: string)
  {
    exists i :: OccursAt(s, x, i)
  }

  /** Filling a template with no data at all reproduces the template text:
      every unresolved placeholder is kept literally. */
  lemma {:induction false} FillWithoutDataIsSource(t: Template)
    ensures Fill(t, map[]) == Source(t)
  {
    if t != [] {
      FillWithoutDataIsSource(t[1..]);
      match t[0]
      case Text(_) =>
      case Placeholder(k) =>
        assert Source([t[0]]) == "{{" + k + "}}" + Source([]);
    }
  }

  /** Every placeholder whose key the data supplies shows up, as its value,
      in the filled message. */
  lemma {:induction false} FillContainsValue(t: Template, data: map<string, string>, j: nat)
    requires j < |t| && t[j].Placeholder? && t[j].key in data
    ensures Contains(Fill(t, data), data[t[j].key])
  {
    var v := data[t[j].key];
    var head := FillPiece(t[0], data);
    var tail := Fill(t[1..], data);
    assert Fill(t, data) == head + tail;
    if j == 0 {
      assert head == v;
      assert OccursAt(head + tail, v, 0);
    } else {
      FillContainsValue(t[1..], data, j - 1);
      var i :| OccursAt(tail, v, i);
      assert (head + tail)[|head| + i..|head| + i + |v|] == tail[i..i + |v|];
      assert OccursAt(head + tail, v, |head| + i);
    }
  }

  /** Every message id a handler reports is declared in the rule's messages
      (an undeclared id would be a rule-authoring defect). */
  predicate DeclaredIds(ds: seq<Diagnostic>, messages: map<string, Template>)
  {
    forall k :: 0 <= k < |ds| ==> ds[k].message.MessageId? ==> ds[k].message.id in messages
  }
}
