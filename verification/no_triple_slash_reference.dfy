/**
  Rule no-triple-slash-reference: the line comments that precede the Program
  node must not be `/// <reference path="..." />` directives.

  The rule tests each comment's value against the anchored regular expression
  `^\/\s*<reference\s*path=`.  Here that expression is a hand-written matcher
  (`MatchesReference`) and, separately, the set of strings it denotes
  (`InReferenceLanguage`); `MatchesReferenceCorrect` proves that the two agree.
  The comment lookup of the host linter is the parameter `commentsBefore`.
 */
module NoTripleSlashReference {
  import opened Estree
  import opened Diagnostics

  const TripleSlashReferenceId := "tripleSlashReference"

  const Messages: map<string, Template> :=
    map[TripleSlashReferenceId := [Text("Do not use a triple slash reference.")]]

  /** The characters of the `\s` class of ECMAScript regular expressions:
      the WhiteSpace characters (tab, vertical tab, form feed, space, no-break
      space, zero width no-break space and the Unicode space separators) and
      the LineTerminator characters (line feed, carriage return, line and
      paragraph separators). */
  predicate IsJsWhitespace(c: char)
  {
    || c == '\t' || c == '\n' || c == '\U{0B}' || c == '\U{0C}' || c == '\r'
    || c == ' ' || c == '\U{A0}' || c == '\U{1680}'
    || ('\U{2000}' <= c <= '\U{200A}')
    || c == '\U{2028}' || c == '\U{2029}' || c == '\U{202F}' || c == '\U{205F}'
    || c == '\U{3000}' || c == '\U{FEFF}'
  }

  predicate AllWhitespace(s: string)
  {
    forall k :: 0 <= k < |s| ==> IsJsWhitespace(s[k])
  }

  /** The length of the longest whitespace prefix of `s`. */
  function WhitespaceRun(s: string): (n: nat)
    ensures n <= |s|
  {
    if s != [] && IsJsWhitespace(s[0]) then 1 + WhitespaceRun(s[1..]) else 0
  }

  /** `\s*` is greedy: it consumes whitespace only, and all of it. */
  lemma {:induction false} WhitespaceRunMaximal(s: string)
    ensures AllWhitespace(s[..WhitespaceRun(s)])
    ensures WhitespaceRun(s) == |s| || !IsJsWhitespace(s[WhitespaceRun(s)])
  {
    if s != [] && IsJsWhitespace(s[0]) {
      WhitespaceRunMaximal(s[1..]);
      assert s[..WhitespaceRun(s)] == [s[0]] + s[1..][..WhitespaceRun(s[1..])];
    }
  }

  /** `\s*`: the rest of `s` after its longest whitespace prefix. */
  function SkipWhitespace(s: string): string
  {
    s[WhitespaceRun(s)..]
  }

  /** A literal at the front of `s`: the rest of `s` after it, if present. */
  function Expect(lit: string, s: string): Option<string>
  {
    if lit <= s then Some(s[|lit|..]) else None
  }

  /** `^\/\s*<reference\s*path=` applied to `value`, one step at a time:
      the slash, then the rest of the pattern. */
  function MatchesReference(value: string): (r: bool)
    ensures r ==> |value| >= |"/<referencepath="| && value[0] == '/'
  {
    match Expect("/", value)
    case None => false
    case Some(a) => MatchesAfterSlash(a)
  }

  /** `\s*<reference\s*path=` at the front of `a`. */
  function MatchesAfterSlash(a: string): (r: bool)
    ensures r ==> |a| >= |"<referencepath="|
  {
    match Expect("<reference", SkipWhitespace(a))
    case None => false
    case Some(b) => MatchesPath(b)
  }

  /** `\s*path=` at the front of `b`. */
  function MatchesPath(b: string): (r: bool)
    ensures r ==> |b| >= |"path="|
  {
    Expect("path=", SkipWhitespace(b)).Some?
  }

  /** The strings the pattern accepts at position 0: a slash, whitespace,
      `<reference`, whitespace, `path=`, then anything. */
  function ReferenceShape(w1: string, w2: string, rest: string): string
  {
    "/" + w1 + "<reference" + w2 + "path=" + rest
  }

  ghost predicate InReferenceLanguage(value: string)
  {
    exists w1, w2, rest :: AllWhitespace(w1) && AllWhitespace(w2) && value == ReferenceShape(w1, w2, rest)
  }

  /** Skipping over a whitespace run stops exactly at the first
      non-whitespace character after it. */
  lemma {:induction false} SkipWhitespaceOver(w: string, t: string)
    requires AllWhitespace(w)
    requires t == [] || !IsJsWhitespace(t[0])
    ensures WhitespaceRun(w + t) == |w|
    ensures SkipWhitespace(w + t) == t
  {
    if w != [] {
      assert (w + t)[1..] == w[1..] + t;
      SkipWhitespaceOver(w[1..], t);
    } else {
      assert w + t == t;
    }
  }

  lemma ExpectFound(lit: string, s: string)
    requires Expect(lit, s).Some?
    ensures s == lit + Expect(lit, s).value
  {
  }

  lemma ExpectLiteral(lit: string, rest: string)
    ensures Expect(lit, lit + rest) == Some(rest)
  {
    assert lit <= lit + rest;
    assert (lit + rest)[|lit|..] == rest;
  }

  lemma ShapeNested(w1: string, w2: string, rest: string)
    ensures ReferenceShape(w1, w2, rest) == "/" + (w1 + ("<reference" + (w2 + ("path=" + rest))))
  {
  }

  /** A whitespace prefix split off: `s` is its run plus what follows. */
  lemma SplitWhitespace(s: string) returns (w: string)
    ensures AllWhitespace(w) && s == w + SkipWhitespace(s)
  {
    WhitespaceRunMaximal(s);
    w := s[..WhitespaceRun(s)];
  }

  lemma MatchesPathSound(b: string) returns (w2: string, rest: string)
    requires MatchesPath(b)
    ensures AllWhitespace(w2) && b == w2 + ("path=" + rest)
  {
    w2 := SplitWhitespace(b);
    rest := Expect("path=", SkipWhitespace(b)).value;
    ExpectFound("path=", SkipWhitespace(b));
  }

  lemma MatchesAfterSlashSound(a: string) returns (w1: string, w2: string, rest: string)
    requires MatchesAfterSlash(a)
    ensures AllWhitespace(w1) && AllWhitespace(w2)
    ensures a == w1 + ("<reference" + (w2 + ("path=" + rest)))
  {
    w1 := SplitWhitespace(a);
    var b := Expect("<reference", SkipWhitespace(a)).value;
    ExpectFound("<reference", SkipWhitespace(a));
    w2, rest := MatchesPathSound(b);
  }

  /** What the matcher accepts is in the pattern's language. */
  lemma MatchesReferenceSound(value: string)
    requires MatchesReference(value)
    ensures InReferenceLanguage(value)
  {
    var a := Expect("/", value).value;
    ExpectFound("/", value);
    var w1, w2, rest := MatchesAfterSlashSound(a);
    ShapeNested(w1, w2, rest);
    assert value == ReferenceShape(w1, w2, rest);
  }

  /** Everything in the pattern's language is accepted by the matcher. */
  lemma MatchesReferenceComplete(w1: string, w2: string, rest: string)
    requires AllWhitespace(w1) && AllWhitespace(w2)
    ensures MatchesReference(ReferenceShape(w1, w2, rest))
  {
    var c := "path=" + rest;
    var b := w2 + c;
    var a' := "<reference" + b;
    var a := w1 + a';
    assert ReferenceShape(w1, w2, rest) == "/" + a;
    ExpectLiteral("/", a);
    assert a'[0] == '<';
    SkipWhitespaceOver(w1, a');
    ExpectLiteral("<reference", b);
    assert c[0] == 'p';
    SkipWhitespaceOver(w2, c);
    ExpectLiteral("path=", rest);
  }

  /** The hand-written matcher accepts exactly the strings of the pattern. */
  lemma MatchesReferenceCorrect(value: string)
    ensures MatchesReference(value) <==> InReferenceLanguage(value)
  {
    if MatchesReference(value) {
      MatchesReferenceSound(value);
    }
    if InReferenceLanguage(value) {
      var w1, w2, rest :| AllWhitespace(w1) && AllWhitespace(w2) && value == ReferenceShape(w1, w2, rest);
      MatchesReferenceComplete(w1, w2, rest);
    }
  }

  /** Only line comments are candidates, and a line comment is one exactly
      when its value matches the pattern. */
  predicate IsTripleSlashReference(c: Comment)
  {
    c.kind == Line && MatchesReference(c.value)
  }

  function ReferenceReport(c: Comment): Diagnostic
  {
    Diagnostic(AtComment(c), MessageId(TripleSlashReferenceId), map[])
  }

  /** The reports of a comment list, stated declaratively: one report per
      triple-slash reference, in comment order. */
  function Reports(comments: seq<Comment>): (r: seq<Diagnostic>)
    ensures |r| <= |comments|
  {
    if comments == [] then []
    else (if IsTripleSlashReference(comments[0]) then [ReferenceReport(comments[0])] else [])
         + Reports(comments[1..])
  }

  /** `commentsBefore.forEach(...)`: each comment is inspected in turn and a
      matching one is appended to the reports already made (`sink`). */
  function CheckTripleSlashReference(comments: seq<Comment>, sink: seq<Diagnostic>): (r: seq<Diagnostic>)
    ensures r == sink + Reports(comments)
    decreases |comments|
  {
    if comments == [] then
      assert sink + [] == sink;
      sink
    else
      var c := comments[0];
      var one: seq<Diagnostic> := if IsTripleSlashReference(c) then [ReferenceReport(c)] else [];
      assert sink + one + Reports(comments[1..]) == sink + (one + Reports(comments[1..]));
      CheckTripleSlashReference(comments[1..], sink + one)
  }

  /** Every report is attached to a triple-slash reference of the list. */
  lemma {:induction false} ReportsSound(comments: seq<Comment>)
    ensures forall k :: 0 <= k < |Reports(comments)| ==>
              && Reports(comments)[k].target.AtComment?
              && Reports(comments)[k].target.comment in comments
              && IsTripleSlashReference(Reports(comments)[k].target.comment)
              && Reports(comments)[k] == ReferenceReport(Reports(comments)[k].target.comment)
  {
    if comments != [] {
      ReportsSound(comments[1..]);
      var c := comments[0];
      var one: seq<Diagnostic> := if IsTripleSlashReference(c) then [ReferenceReport(c)] else [];
      var tail := Reports(comments[1..]);
      assert Reports(comments) == one + tail;
      forall k | 0 <= k < |one + tail|
        ensures (one + tail)[k].target.AtComment? && (one + tail)[k].target.comment in comments
      {
        if k >= |one| {
          assert (one + tail)[k] == tail[k - |one|];
          assert tail[k - |one|].target.comment in comments[1..];
        }
      }
    }
  }

  /** Every triple-slash reference of the list is reported. */
  lemma {:induction false} ReportsComplete(comments: seq<Comment>)
    ensures forall c :: c in comments && IsTripleSlashReference(c) ==> ReferenceReport(c) in Reports(comments)
  {
    if comments != [] {
      ReportsComplete(comments[1..]);
      var c := comments[0];
      var one: seq<Diagnostic> := if IsTripleSlashReference(c) then [ReferenceReport(c)] else [];
      assert Reports(comments) == one + Reports(comments[1..]);
      forall c' | c' in comments && IsTripleSlashReference(c')
        ensures ReferenceReport(c') in Reports(comments)
      {
        if c' != c {
          assert c' in comments[1..];
        }
      }
    }
  }

  /** Reports keep comment order: the reports of a split list are the
      reports of its first part followed by those of its second part. */
  lemma {:induction false} ReportsAppend(c1: seq<Comment>, c2: seq<Comment>)
    ensures Reports(c1 + c2) == Reports(c1) + Reports(c2)
    decreases |c1|
  {
    if c1 == [] {
      assert c1 + c2 == c2;
    } else {
      var c := c1[0];
      var one: seq<Diagnostic> := if IsTripleSlashReference(c) then [ReferenceReport(c)] else [];
      assert (c1 + c2)[0] == c;
      assert (c1 + c2)[1..] == c1[1..] + c2;
      ReportsAppend(c1[1..], c2);
      calc {
        Reports(c1 + c2);
        one + Reports(c1[1..] + c2);
        one + (Reports(c1[1..]) + Reports(c2));
        (one + Reports(c1[1..])) + Reports(c2);
      }
    }
  }

  /** The handler map returned by `create`: only Program has a handler, and
      it inspects only the comments before the Program node. */
  function Handle(node: Node, commentsBefore: Node -> seq<Comment>): (r: seq<Diagnostic>)
    ensures !node.Program? ==> r == []
    ensures node.Program? ==> r == Reports(commentsBefore(node))
    ensures node.Program? ==> |r| <= |commentsBefore(node)|
    ensures forall k :: 0 <= k < |r| ==>
              && r[k].target.AtComment?
              && r[k].target.comment in commentsBefore(node)
              && r[k].target.comment.kind == Line
              && InReferenceLanguage(r[k].target.comment.value)
              && r[k].message == MessageId(TripleSlashReferenceId)
    ensures node.Program? ==>
              forall c :: c in commentsBefore(node) && c.kind == Line && InReferenceLanguage(c.value) ==>
                ReferenceReport(c) in r
    ensures DeclaredIds(r, Messages)
  {
    if node.Program? then
      var comments := commentsBefore(node);
      var r := CheckTripleSlashReference(comments, []);
      assert r == Reports(comments);
      ReportsSound(comments);
      ReportsComplete(comments);
      forall k | 0 <= k < |r|
        ensures InReferenceLanguage(r[k].target.comment.value)
      {
        MatchesReferenceCorrect(r[k].target.comment.value);
      }
      forall c | c in comments && c.kind == Line && InReferenceLanguage(c.value)
        ensures ReferenceReport(c) in r
      {
        MatchesReferenceCorrect(c.value);
      }
      r
    else
      []
  }

  /** Block comments never produce a report, whatever their text. */
  lemma BlockCommentsIgnored(node: Node, commentsBefore: Node -> seq<Comment>)
    ensures forall k :: 0 <= k < |Handle(node, commentsBefore)| ==>
              Handle(node, commentsBefore)[k].target.comment.kind != Block
  {
  }

  /** The slash-less text `<reference path="x" />` is not a reference. */
  lemma WithoutLeadingSlashNotMatched()
    ensures !MatchesReference("<reference path=\"x.d.ts\" />")
    ensures !InReferenceLanguage("<reference path=\"x.d.ts\" />")
  {
    var v := "<reference path=\"x.d.ts\" />";
    assert !("/" <= v) by { assert v[0] == '<'; }
    MatchesReferenceCorrect(v);
  }

  /** The value of `/// <reference path="x.d.ts" />` is matched. */
  lemma TripleSlashDirectiveMatched()
    ensures MatchesReference("/ <reference path=\"x.d.ts\" />")
  {
    var v := "/ <reference path=\"x.d.ts\" />";
    var rest := "\"x.d.ts\" />";
    assert v == ReferenceShape(" ", " ", rest);
    assert AllWhitespace(" ");
    MatchesReferenceComplete(" ", " ", rest);
  }

  /** The reported message, filled from the report's (empty) data, is the
      rule's fixed text. */
  lemma ReferenceMessageText(node: Node, commentsBefore: Node -> seq<Comment>)
    ensures forall d :: d in Handle(node, commentsBefore) ==>
              d.message.MessageId? && d.message.id in Messages
              && Fill(Messages[d.message.id], d.data) == "Do not use a triple slash reference."
  {
    var t := Messages[TripleSlashReferenceId];
    FillWithoutDataIsSource(t);
    assert t[1..] == [];
    assert Source(t) == "Do not use a triple slash reference." + Source(t[1..]);
    ReportsSound(commentsBefore(node));
  }
}
