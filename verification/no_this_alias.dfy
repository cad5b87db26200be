/**
  Rule no-this-alias: a variable declarator whose initializer is `this`
  must not bind it to a local name (`const self = this`) nor destructure it
  (`const { a } = this`), unless the rule's options allow it.

  The options are one group `{ allowDestructuring, allowedNames }`.  The
  user-supplied group is laid over the rule's defaults key by key: a key the
  user gives replaces the default, a key the user omits keeps it, and an
  array given by the user replaces the default array whole.
 */
module NoThisAlias {
  import opened Estree
  import opened Diagnostics

  const ThisAssignmentId := "thisAssignment"
  const ThisDestructureId := "thisDestructure"

  const Messages: map<string, Template> :=
    map[ThisAssignmentId := [Text("Unexpected aliasing of 'this' to local variable.")],
        ThisDestructureId := [Text("Unexpected aliasing of members of 'this' to local variables.")]]

  /** The effective options of the rule. */
  datatype Options = Options(allowDestructuring: bool, allowedNames: seq<string>)

  /** One option group as the user wrote it: an omitted key is `None`. */
  datatype UserOptions = UserOptions(allowDestructuring: Option<bool>, allowedNames: Option<seq<string>>)

  const DefaultOptions: seq<Options> := [Options(false, [])]

  function ValueOr<T>(o: Option<T>, default: T): T
  {
    match o
    case Some(v) => v
    case None => default
  }

  /** One user group laid over one default group. */
  function MergeGroup(d: Options, u: UserOptions): Options
  {
    Options(ValueOr(u.allowDestructuring, d.allowDestructuring), ValueOr(u.allowedNames, d.allowedNames))
  }

  /** The rule's defaults completed by the user's groups, position by position. */
  function ApplyDefault(defaults: seq<Options>, user: seq<UserOptions>): (r: seq<Options>)
    ensures |r| == |defaults|
    ensures user == [] ==> r == defaults
    ensures forall i :: |user| <= i < |defaults| ==> r[i] == defaults[i]
    ensures forall i :: 0 <= i < |defaults| && i < |user| && user[i].allowDestructuring.Some? ==>
              r[i].allowDestructuring == user[i].allowDestructuring.value
    ensures forall i :: 0 <= i < |defaults| && i < |user| && user[i].allowDestructuring.None? ==>
              r[i].allowDestructuring == defaults[i].allowDestructuring
    ensures forall i :: 0 <= i < |defaults| && i < |user| && user[i].allowedNames.Some? ==>
              r[i].allowedNames == user[i].allowedNames.value
    ensures forall i :: 0 <= i < |defaults| && i < |user| && user[i].allowedNames.None? ==>
              r[i].allowedNames == defaults[i].allowedNames
  {
    seq(|defaults|, i requires 0 <= i < |defaults| =>
      if i < |user| then MergeGroup(defaults[i], user[i]) else defaults[i])
  }

  /** Applying the same user options a second time changes nothing. */
  lemma ApplyDefaultIdempotent(defaults: seq<Options>, user: seq<UserOptions>)
    ensures ApplyDefault(ApplyDefault(defaults, user), user) == ApplyDefault(defaults, user)
  {
    var once := ApplyDefault(defaults, user);
    var twice := ApplyDefault(once, user);
    assert forall i :: 0 <= i < |twice| ==> twice[i] == once[i];
  }

  /** A user group that gives every key determines the group entirely. */
  lemma ApplyDefaultFullySpecified(defaults: seq<Options>, user: seq<UserOptions>, i: nat)
    requires i < |defaults| && i < |user|
    requires user[i].allowDestructuring.Some? && user[i].allowedNames.Some?
    ensures ApplyDefault(defaults, user)[i]
            == Options(user[i].allowDestructuring.value, user[i].allowedNames.value)
  {
  }

  /** `util.applyDefault(defaultOptions, context.options)[0]`. */
  function ResolveOptions(user: seq<UserOptions>): (r: Options)
    ensures user == [] ==> r == Options(false, [])
    ensures user != [] ==> r.allowDestructuring == ValueOr(user[0].allowDestructuring, false)
    ensures user != [] ==> r.allowedNames == ValueOr(user[0].allowedNames, [])
  {
    ApplyDefault(DefaultOptions, user)[0]
  }

  /** `allowedNames.includes(id.name)`: a node without a name is never included. */
  predicate Includes(names: seq<string>, name: Option<string>)
  {
    name.Some? && name.value in names
  }

  /** The decision for the binding `id` of a declarator initialized with `this`. */
  function CheckBinding(options: Options, id: Node): (r: seq<Diagnostic>)
    ensures |r| <= 1
    ensures |r| == 1 <==>
              if id.Identifier? then id.name !in options.allowedNames else !options.allowDestructuring
    ensures |r| == 1 ==> r[0].target == AtNode(id) && r[0].data == map[]
    ensures |r| == 1 && r[0].message == MessageId(ThisAssignmentId) <==>
              id.Identifier? && id.name !in options.allowedNames
    ensures |r| == 1 && r[0].message == MessageId(ThisDestructureId) <==>
              !id.Identifier? && !options.allowDestructuring
    ensures DeclaredIds(r, Messages)
  {
    if options.allowDestructuring && !id.Identifier? then []
    else if !Includes(options.allowedNames, Name(id)) then
      [Diagnostic(AtNode(id), MessageId(if id.Identifier? then ThisAssignmentId else ThisDestructureId), map[])]
    else []
  }

  /** The selector `VariableDeclarator[init.type='ThisExpression']`. */
  predicate InitializedWithThis(node: Node)
  {
    node.VariableDeclarator? && node.init.Some? && node.init.value.ThisExpression?
  }

  /** The handler map returned by `create`. */
  function Handle(options: Options, node: Node): (r: seq<Diagnostic>)
    ensures !InitializedWithThis(node) ==> r == []
    ensures |r| <= 1
    ensures forall k :: 0 <= k < |r| ==> r[k].target == AtNode(node.id)
    ensures |r| == 1 <==>
              InitializedWithThis(node)
              && (if node.id.Identifier? then node.id.name !in options.allowedNames
                  else !options.allowDestructuring)
    ensures InitializedWithThis(node) ==> r == CheckBinding(options, node.id)
    ensures DeclaredIds(r, Messages)
  {
    if InitializedWithThis(node) then CheckBinding(options, node.id) else []
  }

  /** `allowedNames` cannot exempt a destructuring: only `allowDestructuring` can. */
  lemma AllowedNamesIgnoredForPatterns(options: Options, node: Node)
    requires InitializedWithThis(node) && !node.id.Identifier?
    ensures Handle(options, node) == Handle(options.(allowedNames := []), node)
  {
  }

  /** `let self = this` with and without `allowedNames: ["self"]`, and
      `const { a } = this` with and without `allowDestructuring`. */
  lemma AliasScenarios(self: Node, pattern: Node, thisExpr: Node)
    requires self == Identifier(1, "self") && pattern.ObjectPattern? && thisExpr.ThisExpression?
    ensures Handle(ResolveOptions([]), VariableDeclarator(0, self, Some(thisExpr)))
            == [Diagnostic(AtNode(self), MessageId(ThisAssignmentId), map[])]
    ensures Handle(ResolveOptions([UserOptions(None, Some(["self"]))]), VariableDeclarator(0, self, Some(thisExpr))) == []
    ensures Handle(ResolveOptions([UserOptions(Some(true), None)]), VariableDeclarator(0, pattern, Some(thisExpr))) == []
    ensures Handle(ResolveOptions([]), VariableDeclarator(0, pattern, Some(thisExpr)))
            == [Diagnostic(AtNode(pattern), MessageId(ThisDestructureId), map[])]
  {
  }

  /** Neither message has a placeholder: a report's message, filled from
      its (empty) data, is the rule's fixed text for its id. */
  lemma AliasMessageText(options: Options, node: Node)
    ensures forall d :: d in Handle(options, node) ==>
              && d.message.MessageId? && d.message.id in Messages
              && Fill(Messages[d.message.id], d.data)
                 == if d.message.id == ThisAssignmentId
                    then "Unexpected aliasing of 'this' to local variable."
                    else "Unexpected aliasing of members of 'this' to local variables."
  {
    var ta := Messages[ThisAssignmentId];
    var td := Messages[ThisDestructureId];
    assert ta[1..] == [] && td[1..] == [];
    assert Source(ta) == "Unexpected aliasing of 'this' to local variable." + Source(ta[1..]);
    assert Source(td) == "Unexpected aliasing of members of 'this' to local variables." + Source(td[1..]);
    assert Fill(ta, map[]) == Source(ta);
    assert Fill(td, map[]) == Source(td);
  }
}
