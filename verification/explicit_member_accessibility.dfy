/**
  Rule explicit-member-accessibility: in a TypeScript file, every class
  property and every method definition must carry an accessibility modifier.

  Two facts the rule obtains from code outside this model are parameters:
  `isTypescript` is the answer of the file-type check on the current file
  name, and `nameOf` is the property-name extraction applied to a member's key.
 */
module ExplicitMemberAccessibility {
  import opened Estree
  import opened Diagnostics

  const MissingAccessibilityId := "missingAccessibility"

  /** "Missing accessibility modifier on {{type}} {{name}}." */
  const MissingAccessibilityTemplate: Template :=
    [Text("Missing accessibility modifier on "), Placeholder("type"), Text(" "),
     Placeholder("name"), Text(".")]

  const Messages: map<string, Template> := map[MissingAccessibilityId := MissingAccessibilityTemplate]

  /** The report for a member without a modifier; `kind` is the member kind
      the message names. */
  function MissingReport(member: Node, kind: string, nameOf: Node -> string): Diagnostic
    requires member.ClassProperty? || member.MethodDefinition?
  {
    Diagnostic(AtNode(member), MessageId(MissingAccessibilityId),
               map["type" := kind, "name" := nameOf(member.key)])
  }

  /** Handler for MethodDefinition nodes. */
  function CheckMethodAccessibilityModifier(methodDefinition: Node, isTypescript: bool, nameOf: Node -> string)
    : (r: seq<Diagnostic>)
    requires methodDefinition.MethodDefinition?
    ensures methodDefinition.accessibility.Some? ==> r == []
    ensures !isTypescript ==> r == []
    ensures methodDefinition.accessibility.None? && isTypescript ==>
              |r| == 1 && r[0].target == AtNode(methodDefinition)
              && r[0].message == MessageId(MissingAccessibilityId)
              && r[0].data == map["type" := "method definition", "name" := nameOf(methodDefinition.key)]
  {
    if methodDefinition.accessibility.None? && isTypescript then
      [MissingReport(methodDefinition, "method definition", nameOf)]
    else
      []
  }

  /** Handler for ClassProperty nodes. */
  function CheckPropertyAccessibilityModifier(classProperty: Node, isTypescript: bool, nameOf: Node -> string)
    : (r: seq<Diagnostic>)
    requires classProperty.ClassProperty?
    ensures classProperty.accessibility.Some? ==> r == []
    ensures !isTypescript ==> r == []
    ensures classProperty.accessibility.None? && isTypescript ==>
              |r| == 1 && r[0].target == AtNode(classProperty)
              && r[0].message == MessageId(MissingAccessibilityId)
              && r[0].data == map["type" := "class property", "name" := nameOf(classProperty.key)]
  {
    if classProperty.accessibility.None? && isTypescript then
      [MissingReport(classProperty, "class property", nameOf)]
    else
      []
  }

  /** The handler map returned by `create`: ClassProperty and MethodDefinition
      are the only node kinds with a handler. */
  function Handle(node: Node, isTypescript: bool, nameOf: Node -> string): (r: seq<Diagnostic>)
    ensures !node.ClassProperty? && !node.MethodDefinition? ==> r == []
    ensures |r| <= 1
    ensures |r| == 1 <==>
              (node.ClassProperty? || node.MethodDefinition?) && node.accessibility.None? && isTypescript
    ensures forall k :: 0 <= k < |r| ==> r[k].target == AtNode(node)
    ensures DeclaredIds(r, Messages)
  {
    match node
    case ClassProperty(_, _, _) => CheckPropertyAccessibilityModifier(node, isTypescript, nameOf)
    case MethodDefinition(_, _, _) => CheckMethodAccessibilityModifier(node, isTypescript, nameOf)
    case _ => []
  }

  /** Filling the template with a kind and a name. */
  lemma FillMissingAccessibility(kind: string, name: string)
    ensures Fill(MissingAccessibilityTemplate, map["type" := kind, "name" := name])
            == "Missing accessibility modifier on " + kind + " " + name + "."
  {
    var t := MissingAccessibilityTemplate;
    var data := map["type" := kind, "name" := name];
    var prefix := "Missing accessibility modifier on ";
    FillCons(t[4..], data);
    assert t[4..][1..] == [];
    var f4 := Fill(t[4..], data);
    assert f4 == ".";
    FillCons(t[3..], data);
    assert t[3..][1..] == t[4..];
    var f3 := Fill(t[3..], data);
    assert f3 == name + f4;
    FillCons(t[2..], data);
    assert t[2..][1..] == t[3..];
    var f2 := Fill(t[2..], data);
    assert f2 == " " + f3;
    FillCons(t[1..], data);
    assert t[1..][1..] == t[2..];
    var f1 := Fill(t[1..], data);
    assert f1 == kind + f2;
    FillCons(t, data);
    assert Fill(t, data) == prefix + f1;
  }

  /** The filled message of a missing-accessibility report names both the
      member kind and the member name. */
  lemma MissingAccessibilityMessage(node: Node, isTypescript: bool, nameOf: Node -> string)
    requires |Handle(node, isTypescript, nameOf)| == 1
    ensures var d := Handle(node, isTypescript, nameOf)[0];
            var kind := if node.MethodDefinition? then "method definition" else "class property";
            && d.message.MessageId? && d.message.id in Messages
            && Fill(Messages[d.message.id], d.data)
               == "Missing accessibility modifier on " + kind + " " + nameOf(node.key) + "."
            && Contains(Fill(Messages[d.message.id], d.data), kind)
            && Contains(Fill(Messages[d.message.id], d.data), nameOf(node.key))
  {
    var d := Handle(node, isTypescript, nameOf)[0];
    var kind := if node.MethodDefinition? then "method definition" else "class property";
    assert d.data == map["type" := kind, "name" := nameOf(node.key)];
    FillMissingAccessibility(kind, nameOf(node.key));
    FillContainsValue(MissingAccessibilityTemplate, d.data, 1);
    FillContainsValue(MissingAccessibilityTemplate, d.data, 3);
  }

  /** The template as written in the rule's metadata. */
  lemma MissingAccessibilityTemplateText()
    ensures Source(Messages[MissingAccessibilityId]) == "Missing accessibility modifier on {{type}} {{name}}."
  {
  }
}
