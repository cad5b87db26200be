# Four typescript-eslint rules, modelled in Dafny

This project models four lint rules of the typescript-eslint plugin. Each
rule is a small handler over syntax-tree nodes that reports zero or more
diagnostics:

- **explicit-member-accessibility** reports class properties and method
  definitions of a TypeScript file that lack a `public`, `protected` or
  `private` modifier. The message template is
  `Missing accessibility modifier on {{type}} {{name}}.`
- **no-triple-slash-reference** reports the line comments before the Program
  node whose text matches `^\/\s*<reference\s*path=`. These are the
  `/// <reference path="..." />` directives.
- **no-this-alias** reports `const self = this` (`thisAssignment`) and
  `const { a } = this` (`thisDestructure`). The options
  `allowDestructuring` and `allowedNames` can exempt them.
- **no-var-requires** reports a `require(...)` call whose parent is a
  variable declarator.

Each handler is a total function. It takes a node and the rule's options or
file facts, and returns the `seq<Diagnostic>` it would pass to `report`, in
call order. A `Diagnostic` holds the target (a node or a comment), a message
id or a literal message, and the data record for the template.

Files:

- `estree.dfy` (module `Estree`): nodes and comments.
- `diagnostics.dfy` (module `Diagnostics`): reports and message templates.
- One file per rule: `explicit_member_accessibility.dfy`,
  `no_triple_slash_reference.dfy`, `no_this_alias.dfy`,
  `no_var_requires.dfy`.

Inputs that come from code outside these four files are parameters:

- `isTypescript`: the file-type check on the current file name.
- `nameOf`: the property-name extraction from a member key.
- `commentsBefore`: the comment lookup of the source code object.
- `options`: the rule options.
- A CallExpression's parent: only its `type` tag, which is all the rule reads.

The regular expression of no-triple-slash-reference is written out as a
matcher. The matcher skips the `/`, skips whitespace, expects
`<reference`, skips whitespace again and expects `path=`. The set of strings
the expression denotes is defined separately as `InReferenceLanguage`.
`MatchesReferenceCorrect` proves that the matcher and that set agree. `\s` is
the fixed ECMAScript set: the WhiteSpace characters, including the Unicode
space separators, and the LineTerminator characters.

## Model

| member | source | states |
|---|---|---|
| ExplicitMemberAccessibility.CheckMethodAccessibilityModifier | packages/eslint-plugin/src/rules/explicit-member-accessibility.ts:45-61 | A method definition with a modifier, or in a non-TypeScript file, gives no report. Without a modifier in a TypeScript file it gives exactly one report. That report is on the method, has id `missingAccessibility`, and its data is type `method definition` and the key's name. |
| ExplicitMemberAccessibility.CheckPropertyAccessibilityModifier | packages/eslint-plugin/src/rules/explicit-member-accessibility.ts:67-83 | The same for a class property, with data type `class property`. The report is attached to the property. |
| ExplicitMemberAccessibility.Handle | packages/eslint-plugin/src/rules/explicit-member-accessibility.ts:88-91 | Only ClassProperty and MethodDefinition nodes are handled; every other kind gives nothing. A report is made exactly when the member has no modifier and the file is TypeScript. There is at most one report, it is on the node itself, and its id is declared in the rule's messages. |
| ExplicitMemberAccessibility.FillMissingAccessibility | packages/eslint-plugin/src/rules/explicit-member-accessibility.ts:30-31 | Filling the template with a type and a name gives `Missing accessibility modifier on <type> <name>.` |
| ExplicitMemberAccessibility.MissingAccessibilityMessage | packages/eslint-plugin/src/rules/explicit-member-accessibility.ts:52-59 | The message of a report, filled from its own data, contains both the member kind and the member's name. |
| ExplicitMemberAccessibility.MissingAccessibilityTemplateText | packages/eslint-plugin/src/rules/explicit-member-accessibility.ts:29-32 | The modelled template, written out, is the rule's `missingAccessibility` text. |
| Diagnostics.Fill | packages/eslint-plugin/src/rules/explicit-member-accessibility.ts:30-31 | Filling a template: a placeholder whose key the data gives becomes its value, any other keeps its `{{key}}` text. A template without placeholders fills to its own text whatever the data. FillContainsValue and FillWithoutDataIsSource state the rest. |
| Diagnostics.FillContainsValue | packages/eslint-plugin/src/rules/explicit-member-accessibility.ts:52-59 | Every placeholder whose key the report data supplies appears as its value in the filled message. |
| Diagnostics.FillWithoutDataIsSource | packages/eslint-plugin/src/rules/explicit-member-accessibility.ts:30-31 | Filling a template without data leaves every `{{key}}` as written. |
| NoTripleSlashReference.MatchesReference | packages/eslint-plugin/src/lib/rules/no-triple-slash-reference.ts:30 | `referenceRegExp.test(value)`. An accepted value starts with `/` and is at least as long as `/<referencepath=`. MatchesReferenceCorrect proves it accepts exactly the pattern's language. |
| NoTripleSlashReference.WhitespaceRunMaximal | packages/eslint-plugin/src/lib/rules/no-triple-slash-reference.ts:30 | `\s*` consumes only whitespace. It stops at the end of the text or at a non-whitespace character. |
| NoTripleSlashReference.SkipWhitespaceOver | packages/eslint-plugin/src/lib/rules/no-triple-slash-reference.ts:30 | Skipping whitespace over a whitespace run followed by a non-whitespace character stops exactly at that character. |
| NoTripleSlashReference.MatchesPathSound | packages/eslint-plugin/src/lib/rules/no-triple-slash-reference.ts:30 | A text accepted by the `\s*path=` step is whitespace, then `path=`, then anything. |
| NoTripleSlashReference.MatchesAfterSlashSound | packages/eslint-plugin/src/lib/rules/no-triple-slash-reference.ts:30 | A text accepted after the slash is whitespace, then `<reference`, then whitespace, then `path=`, then anything. |
| NoTripleSlashReference.MatchesReferenceSound | packages/eslint-plugin/src/lib/rules/no-triple-slash-reference.ts:30 | Every value the matcher accepts belongs to the language of `^\/\s*<reference\s*path=`. |
| NoTripleSlashReference.MatchesReferenceComplete | packages/eslint-plugin/src/lib/rules/no-triple-slash-reference.ts:30 | Every value of that language is accepted: `/`, any whitespace, `<reference`, any whitespace, `path=`, any rest. |
| NoTripleSlashReference.MatchesReferenceCorrect | packages/eslint-plugin/src/lib/rules/no-triple-slash-reference.ts:30 | The matcher accepts a value if and only if the value is in the pattern's language. |
| NoTripleSlashReference.CheckTripleSlashReference | packages/eslint-plugin/src/lib/rules/no-triple-slash-reference.ts:44-54 | The `forEach` fold appends to the reports already made exactly the declarative list `Reports`. That list has one report per matching line comment, in comment order. |
| NoTripleSlashReference.Reports | packages/eslint-plugin/src/lib/rules/no-triple-slash-reference.ts:44-54 | The declarative report list: at most one report per comment, so never more reports than comments. ReportsSound, ReportsComplete and ReportsAppend characterise it exactly. |
| NoTripleSlashReference.ReportsSound | packages/eslint-plugin/src/lib/rules/no-triple-slash-reference.ts:45-52 | Every report is attached to a line comment of the list that matches the pattern. It has id `tripleSlashReference` and no data. |
| NoTripleSlashReference.ReportsComplete | packages/eslint-plugin/src/lib/rules/no-triple-slash-reference.ts:45-52 | Every matching line comment of the list is reported. |
| NoTripleSlashReference.ReportsAppend | packages/eslint-plugin/src/lib/rules/no-triple-slash-reference.ts:44-54 | Reports keep comment order. The reports of a concatenated list are the first part's reports followed by the second part's. |
| NoTripleSlashReference.Handle | packages/eslint-plugin/src/lib/rules/no-triple-slash-reference.ts:41-62 | Only the Program node is handled, and only the comments before it are inspected. For a Program the reports are exactly `Reports` of those comments: one per matching line comment, in comment order. A comment is reported if and only if it is a line comment whose value is in the pattern's language. There are at most as many reports as comments, and each id is declared in the rule's messages. |
| NoTripleSlashReference.ReferenceMessageText | packages/eslint-plugin/src/lib/rules/no-triple-slash-reference.ts:25 | Every report's message, filled from its empty data, is `Do not use a triple slash reference.` |
| NoTripleSlashReference.BlockCommentsIgnored | packages/eslint-plugin/src/lib/rules/no-triple-slash-reference.ts:45-47 | No report is ever attached to a block comment. |
| NoTripleSlashReference.WithoutLeadingSlashNotMatched | packages/eslint-plugin/src/lib/rules/no-triple-slash-reference.ts:30 | `<reference path="x.d.ts" />` without the leading `/` is neither matched nor in the language. |
| NoTripleSlashReference.TripleSlashDirectiveMatched | packages/eslint-plugin/src/lib/rules/no-triple-slash-reference.ts:30 | The value `/ <reference path="x.d.ts" />` of a triple-slash directive is matched. |
| NoThisAlias.ApplyDefault | packages/eslint-plugin/src/rules/no-this-alias.ts:56-59 | With no user options the result is the defaults. Otherwise each key the user gives replaces the default, and each key the user omits keeps it. Groups the user does not give are the defaults. |
| NoThisAlias.ApplyDefaultIdempotent | packages/eslint-plugin/src/rules/no-this-alias.ts:56-59 | Applying the same user options twice gives the same result as applying them once. |
| NoThisAlias.ApplyDefaultFullySpecified | packages/eslint-plugin/src/rules/no-this-alias.ts:56-59 | A user group that gives every key is the effective group. |
| NoThisAlias.ResolveOptions | packages/eslint-plugin/src/rules/no-this-alias.ts:13-18 | With no user options the effective options are `allowDestructuring = false` and `allowedNames = []`. Otherwise each key the user gives wins over these defaults. |
| NoThisAlias.CheckBinding | packages/eslint-plugin/src/rules/no-this-alias.ts:63-73 | There is at most one report, attached to the `id` node and not to the declarator. A report is made if and only if the binding is an Identifier whose name is not in `allowedNames` (the `includes` test), or is not an Identifier while `allowDestructuring` is false; an exempt binding gives nothing at all. `thisAssignment` is reported if and only if the binding is an Identifier whose name is not in `allowedNames`. `thisDestructure` is reported if and only if the binding is not an Identifier and `allowDestructuring` is false. |
| NoThisAlias.Handle | packages/eslint-plugin/src/rules/no-this-alias.ts:61-75 | Only declarators initialized with a ThisExpression are considered. Each one gives at most one report, on its `id`. A report is made exactly as the decision table of the options says. For such a declarator the reports are exactly CheckBinding's for its `id`, so the id is `thisAssignment` for an Identifier and `thisDestructure` for a pattern, and it is declared in the rule's messages. |
| NoThisAlias.AllowedNamesIgnoredForPatterns | packages/eslint-plugin/src/rules/no-this-alias.ts:65-67 | For a destructuring binding, the outcome does not depend on `allowedNames`. |
| NoThisAlias.AliasMessageText | packages/eslint-plugin/src/rules/no-this-alias.ts:48-52 | Every report's message, filled from its empty data, is the fixed text of its id: `Unexpected aliasing of 'this' to local variable.` or `Unexpected aliasing of members of 'this' to local variables.` |
| NoThisAlias.AliasScenarios | packages/eslint-plugin/src/rules/no-this-alias.ts:62-73 | `let self = this` is reported as `thisAssignment` under the defaults and not reported with `allowedNames: ["self"]`. `const { a } = this` is not reported with `allowDestructuring: true` and is reported as `thisDestructure` under the defaults. |
| NoVarRequires.Handle | packages/eslint-plugin/src/lib/rules/no-var-requires.ts:31-43 | Only CallExpression nodes are handled. A call is reported if and only if (the `IsVarRequire` test) its callee is the identifier `require` and its parent's type is `VariableDeclarator`. There is at most one report: on the call node, with the fixed message `Require statement not part of import statement.` |
| NoVarRequires.NamelessCalleeIgnored | packages/eslint-plugin/src/lib/rules/no-var-requires.ts:34 | A callee without a name, such as a member expression, is never reported. |
| NoVarRequires.RequireScenarios | packages/eslint-plugin/src/lib/rules/no-var-requires.ts:33-36 | `const x = require('y')` is reported. The same call as an expression statement is not reported, nor as the object of `require('y').foo`. An import declaration is not reported either. |

## Left out

- The host linter's traversal, selector matching, `report` plumbing, crash
  isolation and rule-engine dispatcher are not part of these files. The
  handler receives the dispatched node; the list it returns stands for the
  `report` calls.
- The `VariableDeclarator[init.type='ThisExpression']` selector is not
  matched as a string. It appears as the guard `NoThisAlias.InitializedWithThis`.
- `util.isTypescript`, `getNameFromPropertyName` and `getCommentsBefore` are
  not part of this model. Their results are parameters.
- `util.metaDocsUrl`, `util.tslintRule` and the `meta` documentation fields
  are static data with no behaviour.
- JSON options-schema validation is left out. User options are assumed to
  have the declared shape: a boolean and an array of strings.
- NoThisAlias.ApplyDefault: the code of `util.applyDefault` lives outside
  these four files. Its behaviour is modelled as a key-by-key override of each default group.
  User groups beyond the declared defaults are ignored, because the rule
  reads only group 0. ESLint's options validation rejects extra groups
  before the rule runs, because the schema declares one group.
- Comment values are sequences of Unicode scalar values, not UTF-16 code
  units. None of the characters the matcher compares is a surrogate.
- Message template interpolation is the host's. Templates are modelled as
  text and `{{key}}` pieces. A key missing from the data stays as written.

## Findings

None.
