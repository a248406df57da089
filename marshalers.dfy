/** Marshalers of the binding generator: objects that produce the C++
    snippets converting a native value into a host value (`toV8`), a host
    value into a native value (`fromV8`), or testing whether a host value
    converts (`test`).  A marshaler is built by a factory from a descriptor of
    string templates; factories memoise their products by `id`.  The module
    also keeps the registry of bound classes and chooses the marshaler for a
    libclang type. */
module Marshalers {

  import opened Host
  import opened Cursors
  import opened Libclang
  import opened Utils

  // ---------------------------------------------------------------------------
  // formatTemplate

  predicate IsLower(ch: char) {
    'a' <= ch <= 'z'
  }

  /** The length of the run of lower-case letters that starts `s`. */
  function LowerRun(s: string): (n: nat)
    ensures n <= |s|
    ensures forall i :: 0 <= i < n ==> IsLower(s[i])
    ensures n < |s| ==> !IsLower(s[n])
  {
    if s != [] && IsLower(s[0]) then 1 + LowerRun(s[1..]) else 0
  }

  /** The position of the first `}` in `s`. */
  function ClosingBrace(s: string): (r: Option<nat>)
    ensures r.Some? ==> r.value < |s| && s[r.value] == '}' && '}' !in s[..r.value]
    ensures r.None? ==> '}' !in s
  {
    if s == [] then None
    else if s[0] == '}' then Some(0)
    else
      var r := ClosingBrace(s[1..]);
      if r.None? then None
      else
        assert s[..r.value + 1] == [s[0]] + s[1..][..r.value];
        Some(r.value + 1)
  }

  function Prefixed(p: string, r: Result<string>): Result<string> {
    if r.Ok? then Ok(p + r.value) else r
  }

  /** What the failed `assert(name in dict)` throws. */
  const MissingName := "AssertionError: false == true"
  /** What evaluating an expression the descriptors do not use gives. */
  const UnknownExpression := "ReferenceError"

  /** The first pass of `formatTemplate`: every `$` followed by a run of
      lower-case letters (the longest one) is replaced by the dictionary
      entry of that run, which must be present; a `$` followed by anything
      else is kept. */
  function Substitute(t: string, dict: map<string, string>): Result<string>
    decreases |t|
  {
    if t == [] then Ok("")
    else if t[0] == '$' && LowerRun(t[1..]) > 0 then
      var n := LowerRun(t[1..]);
      var name := t[1..1 + n];
      if name in dict then Prefixed(dict[name], Substitute(t[1 + n..], dict)) else Throw(MissingName)
    else Prefixed([t[0]], Substitute(t[1..], dict))
  }

  /** The second pass: every `${expr}` (a non-empty `expr` without `}`) is
      replaced by the value of `expr` evaluated against the dictionary.  The
      evaluation is given as the table `exprs` of the expressions the
      descriptors use; the result of a replacement is not scanned again. */
  function Evaluate(s: string, exprs: map<string, string>): Result<string>
    decreases |s|
  {
    if s == [] then Ok("")
    else if |s| >= 2 && s[0] == '$' && s[1] == '{' && ClosingBrace(s[2..]).Some? && ClosingBrace(s[2..]).value > 0 then
      var k := ClosingBrace(s[2..]).value;
      var expr := s[2..2 + k];
      if expr in exprs then Prefixed(exprs[expr], Evaluate(s[3 + k..], exprs)) else Throw(UnknownExpression)
    else Prefixed([s[0]], Evaluate(s[1..], exprs))
  }

  /** `formatTemplate(template, dict)`: both passes, the second over the
      output of the first. */
  function FormatTemplate(t: string, dict: map<string, string>, exprs: map<string, string>): Result<string> {
    var first := Substitute(t, dict);
    if first.Throw? then first else Evaluate(first.value, exprs)
  }

  lemma {:induction false} SubstituteLiteral(lit: string, rest: string, dict: map<string, string>)
    requires '$' !in lit
    ensures Substitute(lit + rest, dict) == Prefixed(lit, Substitute(rest, dict))
  {
    if lit != [] {
      assert (lit + rest)[1..] == lit[1..] + rest;
      SubstituteLiteral(lit[1..], rest, dict);
      assert (lit + rest)[0] == lit[0] != '$';
      assert Substitute(lit + rest, dict) == Prefixed([lit[0]], Substitute(lit[1..] + rest, dict));
      var r := Substitute(rest, dict);
      assert r.Ok? ==> [lit[0]] + (lit[1..] + r.value) == lit + r.value;
    } else {
      assert lit + rest == rest;
      var r := Substitute(rest, dict);
      assert r.Ok? ==> lit + r.value == r.value;
    }
  }

  /** A `$` and a run of lower-case letters that nothing lower-case follows
      is replaced by the run's entry; without an entry the assertion fails. */
  lemma SubstituteName(name: string, rest: string, dict: map<string, string>)
    requires name != [] && forall i :: 0 <= i < |name| ==> IsLower(name[i])
    requires rest == [] || !IsLower(rest[0])
    ensures Substitute("$" + name + rest, dict) ==
              if name in dict then Prefixed(dict[name], Substitute(rest, dict)) else Throw(MissingName)
  {
    var t := "$" + name + rest;
    assert t[1..] == name + rest;
    LowerRunOfName(name, rest);
    assert t[1..1 + |name|] == name;
    assert t[1 + |name|..] == rest;
  }

  lemma {:induction false} LowerRunOfName(name: string, rest: string)
    requires forall i :: 0 <= i < |name| ==> IsLower(name[i])
    requires rest == [] || !IsLower(rest[0])
    ensures LowerRun(name + rest) == |name|
  {
    if name != [] {
      assert (name + rest)[1..] == name[1..] + rest;
      LowerRunOfName(name[1..], rest);
    } else {
      assert name + rest == rest;
    }
  }

  /** A `$` that no lower-case letter follows stays. */
  lemma SubstituteDollar(rest: string, dict: map<string, string>)
    requires rest == [] || !IsLower(rest[0])
    ensures Substitute("$" + rest, dict) == Prefixed("$", Substitute(rest, dict))
  {
    assert ("$" + rest)[1..] == rest;
  }

  lemma {:induction false} EvaluateLiteral(lit: string, rest: string, exprs: map<string, string>)
    requires '$' !in lit
    ensures Evaluate(lit + rest, exprs) == Prefixed(lit, Evaluate(rest, exprs))
  {
    if lit != [] {
      assert (lit + rest)[1..] == lit[1..] + rest;
      EvaluateLiteral(lit[1..], rest, exprs);
      assert (lit + rest)[0] == lit[0] != '$';
      assert Evaluate(lit + rest, exprs) == Prefixed([lit[0]], Evaluate(lit[1..] + rest, exprs));
      var r := Evaluate(rest, exprs);
      assert r.Ok? ==> [lit[0]] + (lit[1..] + r.value) == lit + r.value;
    } else {
      assert lit + rest == rest;
      var r := Evaluate(rest, exprs);
      assert r.Ok? ==> lit + r.value == r.value;
    }
  }

  /** A `${expr}` is replaced by the value of `expr`. */
  lemma EvaluateExpression(expr: string, rest: string, exprs: map<string, string>)
    requires expr != [] && '}' !in expr && expr in exprs
    ensures Evaluate("${" + expr + "}" + rest, exprs) == Prefixed(exprs[expr], Evaluate(rest, exprs))
  {
    var s := "${" + expr + "}" + rest;
    var tail := expr + "}" + rest;
    BracedShape(expr, rest);
    ClosingBraceAfter(expr, rest);
    assert tail[..|expr|] == expr;
    assert s[2..2 + |expr|] == tail[..|expr|];
    assert s[3 + |expr|..] == tail[|expr| + 1..];
    assert tail[|expr| + 1..] == rest;
  }

  lemma BracedShape(expr: string, rest: string)
    ensures var s := "${" + expr + "}" + rest;
      |s| >= 3 + |expr| && s[0] == '$' && s[1] == '{' && s[2..] == expr + "}" + rest
  {
  }

  lemma {:induction false} ClosingBraceAfter(expr: string, rest: string)
    requires '}' !in expr
    ensures ClosingBrace(expr + "}" + rest) == Some(|expr|)
  {
    if expr != [] {
      assert (expr + "}" + rest)[1..] == expr[1..] + "}" + rest;
      ClosingBraceAfter(expr[1..], rest);
    }
  }

  // Templates as lists of pieces

  /** A piece of a template: literal text, a `$name` or a `${expr}`. */
  datatype Piece = Lit(text: string) | Var(name: string) | Expr(code: string)

  /** A template as the list of its pieces. */
  datatype Pieces = Done | Then(head: Piece, tail: Pieces)

  /** `$name` in a template. */
  function Named(name: string): string {
    "$" + name
  }

  /** `${code}` in a template. */
  function Eval(code: string): string {
    "${" + code + "}"
  }

  function RenderPiece(p: Piece): string {
    match p
    case Lit(text) => text
    case Var(name) => Named(name)
    case Expr(code) => Eval(code)
  }

  /** The template text of a list of pieces. */
  function Render(ps: Pieces): string {
    if ps.Done? then "" else RenderPiece(ps.head) + Render(ps.tail)
  }

  /** A name `$name` can refer to: a run of lower-case letters. */
  predicate IsName(name: string) {
    name != [] && forall i :: 0 <= i < |name| ==> IsLower(name[i])
  }

  /** An expression `${code}` can hold. */
  predicate IsCode(code: string) {
    code != [] && '$' !in code && '}' !in code
  }

  predicate PieceOk(p: Piece) {
    match p
    case Lit(text) => text != [] && '$' !in text
    case Var(name) => IsName(name)
    case Expr(code) => IsCode(code)
  }

  /** Pieces that read back as themselves: literals hold no `$`, and no
      literal that follows a name starts with a lower-case letter. */
  predicate WellFormed(ps: Pieces) {
    ps.Done? ||
    (PieceOk(ps.head) &&
     (ps.head.Var? && ps.tail.Then? && ps.tail.head.Lit? && ps.tail.head.text != [] ==> !IsLower(ps.tail.head.text[0])) &&
     WellFormed(ps.tail))
  }

  /** Every name has an entry free of `$`, and every expression a value. */
  predicate Covered(ps: Pieces, dict: map<string, string>, exprs: map<string, string>) {
    ps.Done? ||
    ((ps.head.Var? ==> ps.head.name in dict && '$' !in dict[ps.head.name]) &&
     (ps.head.Expr? ==> ps.head.code in exprs) &&
     Covered(ps.tail, dict, exprs))
  }

  /** The text after the first pass. */
  function Halfway(ps: Pieces, dict: map<string, string>, exprs: map<string, string>): string
    requires Covered(ps, dict, exprs)
  {
    if ps.Done? then ""
    else
      (match ps.head
       case Lit(text) => text
       case Var(name) => dict[name]
       case Expr(code) => "${" + code + "}") + Halfway(ps.tail, dict, exprs)
  }

  /** The pieces' values, concatenated. */
  function Filled(ps: Pieces, dict: map<string, string>, exprs: map<string, string>): string
    requires Covered(ps, dict, exprs)
  {
    if ps.Done? then ""
    else
      (match ps.head
       case Lit(text) => text
       case Var(name) => dict[name]
       case Expr(code) => exprs[code]) + Filled(ps.tail, dict, exprs)
  }

  lemma {:induction false} SubstituteRender(ps: Pieces, dict: map<string, string>, exprs: map<string, string>)
    requires WellFormed(ps) && Covered(ps, dict, exprs)
    ensures Substitute(Render(ps), dict) == Ok(Halfway(ps, dict, exprs))
  {
    if ps.Then? {
      SubstituteRender(ps.tail, dict, exprs);
      if ps.head.Lit? {
        SubstituteLitHead(ps, dict, exprs);
      } else if ps.head.Var? {
        SubstituteVarHead(ps, dict, exprs);
      } else {
        SubstituteExprHead(ps, dict, exprs);
      }
    }
  }

  lemma SubstituteLitHead(ps: Pieces, dict: map<string, string>, exprs: map<string, string>)
    requires ps.Then? && ps.head.Lit? && PieceOk(ps.head)
    requires Covered(ps, dict, exprs)
    requires Substitute(Render(ps.tail), dict) == Ok(Halfway(ps.tail, dict, exprs))
    ensures Substitute(Render(ps), dict) == Ok(Halfway(ps, dict, exprs))
  {
    SubstituteLiteral(ps.head.text, Render(ps.tail), dict);
  }

  lemma SubstituteExprHead(ps: Pieces, dict: map<string, string>, exprs: map<string, string>)
    requires ps.Then? && ps.head.Expr? && PieceOk(ps.head)
    requires Covered(ps, dict, exprs)
    requires Substitute(Render(ps.tail), dict) == Ok(Halfway(ps.tail, dict, exprs))
    ensures Substitute(Render(ps), dict) == Ok(Halfway(ps, dict, exprs))
  {
    SubstituteBraced(ps.head.code, Render(ps.tail), dict);
  }

  /** The first pass keeps a `${code}`. */
  lemma SubstituteBraced(code: string, rest: string, dict: map<string, string>)
    requires '$' !in code
    ensures Substitute(Eval(code) + rest, dict) == Prefixed(Eval(code), Substitute(rest, dict))
  {
    var braced := "{" + code + "}";
    assert '$' !in braced;
    assert Eval(code) + rest == "$" + (braced + rest);
    SubstituteDollar(braced + rest, dict);
    SubstituteLiteral(braced, rest, dict);
    var r := Substitute(rest, dict);
    if r.Ok? {
      assert "$" + (braced + r.value) == Eval(code) + r.value;
    }
  }

  lemma SubstituteVarHead(ps: Pieces, dict: map<string, string>, exprs: map<string, string>)
    requires ps.Then? && ps.head.Var? && WellFormed(ps) && Covered(ps, dict, exprs)
    requires Substitute(Render(ps.tail), dict) == Ok(Halfway(ps.tail, dict, exprs))
    ensures Substitute(Render(ps), dict) == Ok(Halfway(ps, dict, exprs))
  {
    var name := ps.head.name;
    var rest := Render(ps.tail);
    assert PieceOk(ps.head);
    assert rest == [] || !IsLower(rest[0]) by {
      if ps.tail.Then? {
        assert PieceOk(ps.tail.head);
      }
    }
    SubstituteName(name, rest, dict);
    assert Render(ps) == "$" + name + rest;
  }

  lemma {:induction false} EvaluateHalfway(ps: Pieces, dict: map<string, string>, exprs: map<string, string>)
    requires WellFormed(ps) && Covered(ps, dict, exprs)
    ensures Evaluate(Halfway(ps, dict, exprs), exprs) == Ok(Filled(ps, dict, exprs))
  {
    if ps.Then? {
      EvaluateHalfway(ps.tail, dict, exprs);
      var rest := Halfway(ps.tail, dict, exprs);
      match ps.head
      case Lit(text) =>
        EvaluateLiteral(text, rest, exprs);
      case Var(name) =>
        EvaluateLiteral(dict[name], rest, exprs);
      case Expr(code) =>
        EvaluateExpression(code, rest, exprs);
    }
  }

  /** Formatting a well-formed template whose names and expressions all have
      values yields the pieces' values in order. */
  lemma FormatRender(ps: Pieces, dict: map<string, string>, exprs: map<string, string>)
    requires WellFormed(ps) && Covered(ps, dict, exprs)
    ensures FormatTemplate(Render(ps), dict, exprs) == Ok(Filled(ps, dict, exprs))
  {
    SubstituteRender(ps, dict, exprs);
    EvaluateHalfway(ps, dict, exprs);
  }

  /** Text without `$` is left as it is. */
  lemma FormatPlainText(t: string, dict: map<string, string>, exprs: map<string, string>)
    requires '$' !in t
    ensures FormatTemplate(t, dict, exprs) == Ok(t)
  {
    SubstituteLiteral(t, "", dict);
    EvaluateLiteral(t, "", exprs);
    assert t + "" == t;
  }

  /** A name whose entry holds no `$`. */
  predicate Entry(dict: map<string, string>, a: string) {
    a in dict && '$' !in dict[a]
  }

  /** Text without `$` in front of a template stays in front of the result. */
  lemma FormatLiteralThen(p: string, t: string, dict: map<string, string>, exprs: map<string, string>)
    requires '$' !in p
    ensures FormatTemplate(p + t, dict, exprs) == Prefixed(p, FormatTemplate(t, dict, exprs))
  {
    SubstituteLiteral(p, t, dict);
    var r := Substitute(t, dict);
    if r.Ok? {
      EvaluateLiteral(p, r.value, exprs);
    }
  }

  /** A leading `$name` becomes its entry. */
  lemma FormatNameThen(a: string, t: string, dict: map<string, string>, exprs: map<string, string>)
    requires IsName(a) && Entry(dict, a)
    requires t == [] || !IsLower(t[0])
    ensures FormatTemplate(Named(a) + t, dict, exprs) == Prefixed(dict[a], FormatTemplate(t, dict, exprs))
  {
    SubstituteName(a, t, dict);
    var r := Substitute(t, dict);
    if r.Ok? {
      EvaluateLiteral(dict[a], r.value, exprs);
    }
  }

  /** A leading `${code}` becomes the value of `code`. */
  lemma FormatExprThen(e: string, t: string, dict: map<string, string>, exprs: map<string, string>)
    requires IsCode(e) && e in exprs
    ensures FormatTemplate(Eval(e) + t, dict, exprs) == Prefixed(exprs[e], FormatTemplate(t, dict, exprs))
  {
    assert Eval(e) + t == "$" + ("{" + e + "}" + t);
    SubstituteDollar("{" + e + "}" + t, dict);
    SubstituteLiteral("{" + e + "}", t, dict);
    var r := Substitute(t, dict);
    if r.Ok? {
      assert "$" + ("{" + e + "}" + r.value) == "${" + e + "}" + r.value;
      EvaluateExpression(e, r.value, exprs);
    }
  }

  /** A template that is one `$name`. */
  lemma FormatName(a: string, dict: map<string, string>, exprs: map<string, string>)
    requires IsName(a) && Entry(dict, a)
    ensures FormatTemplate(Named(a), dict, exprs) == Ok(dict[a])
  {
    assert Named(a) == Named(a) + "";
    FormatNameThen(a, "", dict, exprs);
    FormatPlainText("", dict, exprs);
    assert dict[a] + "" == dict[a];
  }

  /** A template that is one `${code}`. */
  lemma FormatExpr(e: string, dict: map<string, string>, exprs: map<string, string>)
    requires IsCode(e) && e in exprs
    ensures FormatTemplate(Eval(e), dict, exprs) == Ok(exprs[e])
  {
    assert Eval(e) == Eval(e) + "";
    FormatExprThen(e, "", dict, exprs);
    FormatPlainText("", dict, exprs);
    assert exprs[e] + "" == exprs[e];
  }

  /** The shape of most snippets: `$a`, text, `$c`, text. */
  lemma FormatCall(a: string, b: string, c: string, d: string, dict: map<string, string>, exprs: map<string, string>)
    requires IsName(a) && IsName(c) && Entry(dict, a) && Entry(dict, c)
    requires '$' !in b && '$' !in d && b != [] && !IsLower(b[0]) && (d == [] || !IsLower(d[0]))
    ensures FormatTemplate(Named(a) + b + Named(c) + d, dict, exprs) == Ok(dict[a] + b + dict[c] + d)
  {
    var rest := b + Named(c) + d;
    assert Named(a) + b + Named(c) + d == Named(a) + rest;
    assert rest[0] == b[0];
    FormatNameThen(a, rest, dict, exprs);
    FormatWrapped(b, c, d, dict, exprs);
    assert dict[a] + (b + dict[c] + d) == dict[a] + b + dict[c] + d;
  }

  /** Text, then the shape of `FormatCall`. */
  lemma FormatLeadCall(lead: string, a: string, b: string, c: string, d: string, dict: map<string, string>, exprs: map<string, string>)
    requires '$' !in lead
    requires IsName(a) && IsName(c) && Entry(dict, a) && Entry(dict, c)
    requires '$' !in b && '$' !in d && b != [] && !IsLower(b[0]) && (d == [] || !IsLower(d[0]))
    ensures FormatTemplate(lead + Named(a) + b + Named(c) + d, dict, exprs) == Ok(lead + dict[a] + b + dict[c] + d)
  {
    assert lead + Named(a) + b + Named(c) + d == lead + (Named(a) + b + Named(c) + d);
    FormatLiteralThen(lead, Named(a) + b + Named(c) + d, dict, exprs);
    FormatCall(a, b, c, d, dict, exprs);
    assert lead + (dict[a] + b + dict[c] + d) == lead + dict[a] + b + dict[c] + d;
  }

  /** Text, one `$name` and text. */
  lemma FormatWrapped(lead: string, a: string, d: string, dict: map<string, string>, exprs: map<string, string>)
    requires '$' !in lead && '$' !in d && (d == [] || !IsLower(d[0]))
    requires IsName(a) && Entry(dict, a)
    ensures FormatTemplate(lead + Named(a) + d, dict, exprs) == Ok(lead + dict[a] + d)
  {
    assert lead + Named(a) + d == lead + (Named(a) + d);
    FormatLiteralThen(lead, Named(a) + d, dict, exprs);
    FormatNameThen(a, d, dict, exprs);
    FormatPlainText(d, dict, exprs);
    assert lead + (dict[a] + d) == lead + dict[a] + d;
  }

  /** Text and one `$name`. */
  lemma FormatLabelled(lead: string, a: string, dict: map<string, string>, exprs: map<string, string>)
    requires '$' !in lead && IsName(a) && Entry(dict, a)
    ensures FormatTemplate(lead + Named(a), dict, exprs) == Ok(lead + dict[a])
  {
    FormatLiteralThen(lead, Named(a), dict, exprs);
    FormatName(a, dict, exprs);
  }

  /** Text, one `${code}` and text. */
  lemma FormatWrappedExpr(lead: string, e: string, d: string, dict: map<string, string>, exprs: map<string, string>)
    requires '$' !in lead && '$' !in d && IsCode(e) && e in exprs
    ensures FormatTemplate(lead + Eval(e) + d, dict, exprs) == Ok(lead + exprs[e] + d)
  {
    assert lead + Eval(e) + d == lead + (Eval(e) + d);
    FormatLiteralThen(lead, Eval(e) + d, dict, exprs);
    FormatExprThen(e, d, dict, exprs);
    FormatPlainText(d, dict, exprs);
    assert lead + (exprs[e] + d) == lead + exprs[e] + d;
  }

  /** Text and `${code}` in front of a template. */
  lemma FormatLeadExprThen(l: string, e: string, t: string, dict: map<string, string>, exprs: map<string, string>)
    requires '$' !in l && IsCode(e) && e in exprs
    ensures FormatTemplate(l + Eval(e) + t, dict, exprs) == Prefixed(l + exprs[e], FormatTemplate(t, dict, exprs))
  {
    assert l + Eval(e) + t == l + (Eval(e) + t);
    FormatLiteralThen(l, Eval(e) + t, dict, exprs);
    FormatExprThen(e, t, dict, exprs);
    var r := FormatTemplate(t, dict, exprs);
    if r.Ok? {
      assert l + (exprs[e] + r.value) == l + exprs[e] + r.value;
    }
  }

  lemma RegroupNine(x0: string, x1: string, x2: string, x3: string, x4: string, x5: string, x6: string, x7: string, x8: string)
    ensures x0 + x1 + x2 + x3 + x4 + x5 + x6 + x7 + x8 == x0 + x1 + (x2 + x3 + (x4 + x5 + (x6 + x7 + x8)))
  {
    var a, b, c, d := x0 + x1, x2 + x3, x4 + x5, x6 + x7 + x8;
    assert a + b + c + d == a + (b + (c + d));
  }

  lemma RegroupSeven(x0: string, x1: string, x2: string, x3: string, x4: string, x5: string, x6: string)
    ensures x0 + x1 + x2 + x3 + x4 + x5 + x6 == x0 + x1 + (x2 + x3 + (x4 + x5 + x6))
  {
    var a, b, c := x0 + x1, x2 + x3, x4 + x5 + x6;
    assert a + b + c == a + (b + c);
  }

  /** Three `${code}`s and a `$name`, each after text, and text. */
  lemma FormatThreeExprsName(l0: string, e1: string, l1: string, e2: string, l2: string, e3: string, l3: string, a: string, l4: string,
                             dict: map<string, string>, exprs: map<string, string>)
    requires '$' !in l0 && '$' !in l1 && '$' !in l2 && '$' !in l3 && '$' !in l4 && (l4 == [] || !IsLower(l4[0]))
    requires IsCode(e1) && IsCode(e2) && IsCode(e3) && e1 in exprs && e2 in exprs && e3 in exprs
    requires IsName(a) && Entry(dict, a)
    ensures FormatTemplate(l0 + Eval(e1) + l1 + Eval(e2) + l2 + Eval(e3) + l3 + Named(a) + l4, dict, exprs) ==
              Ok(l0 + exprs[e1] + l1 + exprs[e2] + l2 + exprs[e3] + l3 + dict[a] + l4)
  {
    var t3 := l3 + Named(a) + l4;
    FormatWrapped(l3, a, l4, dict, exprs);
    var t2 := l2 + Eval(e3) + t3;
    FormatLeadExprThen(l2, e3, t3, dict, exprs);
    var t1 := l1 + Eval(e2) + t2;
    FormatLeadExprThen(l1, e2, t2, dict, exprs);
    FormatLeadExprThen(l0, e1, t1, dict, exprs);
    RegroupNine(l0, Eval(e1), l1, Eval(e2), l2, Eval(e3), l3, Named(a), l4);
    RegroupNine(l0, exprs[e1], l1, exprs[e2], l2, exprs[e3], l3, dict[a], l4);
  }

  /** A `${code}`, a `$name` and a `${code}`, each after text, and text. */
  lemma FormatExprNameExpr(l0: string, e1: string, l1: string, a: string, l2: string, e2: string, l3: string,
                           dict: map<string, string>, exprs: map<string, string>)
    requires '$' !in l0 && '$' !in l1 && '$' !in l2 && '$' !in l3 && l2 != [] && !IsLower(l2[0])
    requires IsCode(e1) && IsCode(e2) && e1 in exprs && e2 in exprs
    requires IsName(a) && Entry(dict, a)
    ensures FormatTemplate(l0 + Eval(e1) + l1 + Named(a) + l2 + Eval(e2) + l3, dict, exprs) ==
              Ok(l0 + exprs[e1] + l1 + dict[a] + l2 + exprs[e2] + l3)
  {
    var t2 := l2 + Eval(e2) + l3;
    FormatWrappedExpr(l2, e2, l3, dict, exprs);
    var t1 := l1 + Named(a) + t2;
    assert t1 == l1 + (Named(a) + t2);
    assert t2[0] == l2[0];
    FormatLiteralThen(l1, Named(a) + t2, dict, exprs);
    FormatNameThen(a, t2, dict, exprs);
    FormatLeadExprThen(l0, e1, t1, dict, exprs);
    RegroupSeven(l0, Eval(e1), l1, Named(a), l2, Eval(e2), l3);
    assert l1 + (dict[a] + (l2 + exprs[e2] + l3)) == l1 + dict[a] + (l2 + exprs[e2] + l3);
    RegroupSeven(l0, exprs[e1], l1, dict[a], l2, exprs[e2], l3);
  }

  // ---------------------------------------------------------------------------
  // Marshalers

  /** The marshalers.  `Primitive` carries the type name and the stem of the
      helper macros; the class-bound ones carry the declaration of the
      class and, for references and containers, the bound class they
      delegate to. */
  datatype Marshaler =
    | BoundClass(decl: Cursor)
    | BoundClassRef(actual: Cursor, clazz: Marshaler)
    | Primitive(typename: string, stem: string)
    | LLVMContext
    | Twine
    | StringRef
    | STDString
    | IpList(actual: Cursor, clazz: Marshaler)
    | ArrayRef(actual: Cursor, clazz: Marshaler)
    | Enumeration(decl: Cursor)

  /** The marshalers built by a factory function (the others are single
      objects made when the module loads). */
  predicate HasFactory(m: Marshaler) {
    m.BoundClass? || m.BoundClassRef? || m.Primitive? || m.IpList? || m.ArrayRef? || m.Enumeration?
  }

  /** The `name` property: the class or enum spelling, `null` elsewhere. */
  function NameOf(m: Marshaler): Option<string> {
    match m
    case BoundClass(decl) => Some(SpellingOf(decl))
    case Enumeration(decl) => Some(SpellingOf(decl))
    case _ => None
  }

  /** The `cxxname` property of class and enum marshalers. */
  function CxxNameOf(m: Marshaler): Option<string> {
    match m
    case BoundClass(decl) => Some(QualifiedName(decl))
    case Enumeration(decl) => Some(QualifiedName(decl))
    case _ => None
  }

  /** The `id` property once the factory has run. */
  function IdOf(m: Marshaler): Option<string> {
    match m
    case BoundClass(decl) => Some(UsrOf(decl))
    case BoundClassRef(actual, _) => Some(UsrOf(actual))
    case Primitive(_, stem) => Some(stem)
    case LLVMContext => None
    case Twine => Some("Twine")
    case StringRef => Some("StringRef")
    case STDString => Some("STDString")
    case IpList(actual, _) => Some(UsrOf(DefinitionOf(actual)))
    case ArrayRef(actual, _) => Some(UsrOf(DefinitionOf(actual)))
    case Enumeration(decl) => Some(QualifiedName(decl))
  }

  /** The `display` property once the factory has run. */
  function DisplayOf(m: Marshaler): Option<string> {
    match m
    case BoundClass(decl) => Some("class " + QualifiedName(decl))
    case BoundClassRef(_, clazz) => DisplayOf(clazz)
    case Primitive(typename, _) => Some(typename)
    case LLVMContext => None
    case Twine => Some("string")
    case StringRef => Some("string")
    case STDString => Some("string")
    case IpList(_, clazz) => Some("llvm::iplist<" + Text(CxxNameOf(clazz)) + ">")
    case ArrayRef(_, _) => None
    case Enumeration(decl) => Some("enum " + QualifiedName(decl))
  }

  /** A property as text: a missing one reads as `undefined`. */
  function Text(p: Option<string>): string {
    if p.Some? then p.value else "undefined"
  }

  /** A property the marshaler constructor sets to `null`, as text. */
  function NullText(p: Option<string>): string {
    if p.Some? then p.value else "null"
  }

  /** The string properties a factory's product has once its descriptor's
      `ctor` has run and before `id` and `display` are filled in: `id` and
      `name` start as `null`; `Primitive` sets `id` itself. */
  function CtorFields(m: Marshaler): map<string, string> {
    var base := map["id" := if m.Primitive? then m.stem else "null", "name" := NullText(NameOf(m))];
    match m
    case BoundClass(decl) => base["cxxname" := QualifiedName(decl)]
    case Enumeration(decl) => base["cxxname" := QualifiedName(decl)]
    case Primitive(typename, _) => base["typename" := typename]
    case _ => base
  }

  /** The string properties a formatter's dictionary reaches through the
      marshaler, and `val`. */
  function FormatterDict(m: Marshaler, val: string): map<string, string> {
    var withId := CtorFields(m)["id" := NullText(IdOf(m))];
    var withDisplay := if DisplayOf(m).Some? then withId["display" := DisplayOf(m).value] else withId;
    withDisplay["val" := val]
  }

  /** The values of the expressions the descriptors of `iplist` and
      `ArrayRef` embed. */
  function Expressions(m: Marshaler): map<string, string> {
    match m
    case IpList(actual, clazz) => ContainerExpressions(actual, clazz)
    case ArrayRef(actual, clazz) => ContainerExpressions(actual, clazz)
    case _ => map[]
  }

  function ContainerExpressions(actual: Cursor, clazz: Marshaler): map<string, string> {
    map["actual.definition().usr()" := UsrOf(DefinitionOf(actual)),
        "actual.display()" := DisplayNameOf(actual),
        "clazz.cxxname" := Text(CxxNameOf(clazz)),
        "clazz.name" := if clazz.LLVMContext? then "undefined" else NullText(NameOf(clazz))]
  }

  /** The `id` template of a descriptor, when it is a string. */
  function IdTemplate(m: Marshaler): Option<string> {
    match m
    case Twine => Some("Twine")
    case StringRef => Some("StringRef")
    case STDString => Some("STDString")
    case IpList(_, _) => Some(Eval("actual.definition().usr()"))
    case ArrayRef(_, _) => Some(Eval("actual.definition().usr()"))
    case Enumeration(_) => Some(Named("cxxname"))
    case _ => None
  }

  /** The `display` template of a descriptor, when it is a string. */
  function DisplayTemplate(m: Marshaler): Option<string> {
    match m
    case BoundClass(_) => Some("class " + Named("cxxname"))
    case Primitive(_, _) => Some(Named("typename"))
    case Twine => Some("string")
    case StringRef => Some("string")
    case STDString => Some("string")
    case IpList(_, _) => Some("llvm::iplist<" + Eval("clazz.cxxname") + ">")
    case Enumeration(_) => Some("enum " + Named("cxxname"))
    case _ => None
  }

  /** The `id` template, when there is one, yields the model's `id`. */
  predicate IdFilled(m: Marshaler) {
    IdTemplate(m).Some? ==>
      FormatTemplate(IdTemplate(m).value, CtorFields(m), Expressions(m)) == Ok(IdOf(m).value)
  }

  /** The `display` template, when there is one, formatted once `id` is
      set, yields the model's `display`. */
  predicate DisplayFilled(m: Marshaler) {
    DisplayTemplate(m).Some? ==>
      FormatTemplate(DisplayTemplate(m).value, CtorFields(m)["id" := NullText(IdOf(m))], Expressions(m)) == Ok(DisplayOf(m).value)
  }

  /** The factory fills `id` and then `display` from the descriptor's
      templates: each template yields the property the model gives the
      marshaler. */
  lemma DescriptorFields(m: Marshaler)
    requires forall k :: k in CtorFields(m) ==> '$' !in CtorFields(m)[k]
    ensures IdFilled(m) && DisplayFilled(m)
  {
    match m
    case Twine => StringFields(m);
    case StringRef => StringFields(m);
    case STDString => StringFields(m);
    case IpList(actual, clazz) => IpListFields(actual, clazz);
    case ArrayRef(actual, clazz) => ArrayRefFields(actual, clazz);
    case Enumeration(decl) =>
      assert CtorFields(m)["cxxname"] == QualifiedName(decl);
      EnumFields(decl);
    case BoundClass(decl) =>
      assert CtorFields(m)["cxxname"] == QualifiedName(decl);
      ClassFields(decl);
    case Primitive(typename, stem) =>
      assert CtorFields(m)["typename"] == typename;
      PrimitiveFields(typename, stem);
    case _ =>
  }

  lemma StringFields(m: Marshaler)
    requires m.Twine? || m.StringRef? || m.STDString?
    ensures IdFilled(m) && DisplayFilled(m)
  {
    var fields := CtorFields(m);
    FormatPlainText(IdTemplate(m).value, fields, map[]);
    FormatPlainText("string", fields["id" := NullText(IdOf(m))], map[]);
  }

  /** The expressions of a container's templates and their values. */
  lemma ContainerValues(actual: Cursor, clazz: Marshaler)
    ensures "actual.definition().usr()" in ContainerExpressions(actual, clazz)
    ensures ContainerExpressions(actual, clazz)["actual.definition().usr()"] == UsrOf(DefinitionOf(actual))
    ensures "actual.display()" in ContainerExpressions(actual, clazz)
    ensures ContainerExpressions(actual, clazz)["actual.display()"] == DisplayNameOf(actual)
    ensures "clazz.cxxname" in ContainerExpressions(actual, clazz)
    ensures ContainerExpressions(actual, clazz)["clazz.cxxname"] == Text(CxxNameOf(clazz))
    ensures "clazz.name" in ContainerExpressions(actual, clazz)
    ensures ContainerExpressions(actual, clazz)["clazz.name"] == if clazz.LLVMContext? then "undefined" else NullText(NameOf(clazz))
    ensures IsCode("actual.definition().usr()") && IsCode("actual.display()") && IsCode("clazz.cxxname") && IsCode("clazz.name")
  {
    UsrCode();
    DisplayCode();
    CxxNameCode();
    NameCode();
  }

  /** The dictionary holds the value expression under `val`. */
  lemma ValEntry(m: Marshaler, val: string)
    ensures "val" in FormatterDict(m, val) && FormatterDict(m, val)["val"] == val
  {
  }

  /** The names the descriptors use. */
  lemma Names()
    ensures IsName("id") && IsName("val") && IsName("name") && IsName("cxxname") && IsName("typename")
  {
  }

  lemma UsrCode() ensures IsCode("actual.definition().usr()") {}
  lemma DisplayCode() ensures IsCode("actual.display()") {}
  lemma CxxNameCode() ensures IsCode("clazz.cxxname") {}
  lemma NameCode() ensures IsCode("clazz.name") {}

  lemma IpListFields(actual: Cursor, clazz: Marshaler)
    ensures IdFilled(IpList(actual, clazz)) && DisplayFilled(IpList(actual, clazz))
  {
    var m := IpList(actual, clazz);
    var fields := CtorFields(m);
    var exprs := ContainerExpressions(actual, clazz);
    ContainerValues(actual, clazz);
    FormatExpr("actual.definition().usr()", fields, exprs);
    FormatWrappedExpr("llvm::iplist<", "clazz.cxxname", ">", fields["id" := NullText(IdOf(m))], exprs);
  }

  lemma ArrayRefFields(actual: Cursor, clazz: Marshaler)
    ensures IdFilled(ArrayRef(actual, clazz)) && DisplayFilled(ArrayRef(actual, clazz))
  {
    var m := ArrayRef(actual, clazz);
    ContainerValues(actual, clazz);
    FormatExpr("actual.definition().usr()", CtorFields(m), ContainerExpressions(actual, clazz));
  }

  lemma EnumFields(decl: Cursor)
    requires '$' !in QualifiedName(decl)
    ensures IdFilled(Enumeration(decl)) && DisplayFilled(Enumeration(decl))
  {
    var m := Enumeration(decl);
    var fields := CtorFields(m);
    var withId := fields["id" := NullText(IdOf(m))];
    assert Entry(fields, "cxxname") && Entry(withId, "cxxname");
    Names();
    FormatName("cxxname", fields, map[]);
    FormatLabelled("enum ", "cxxname", withId, map[]);
  }

  lemma ClassFields(decl: Cursor)
    requires '$' !in QualifiedName(decl)
    ensures IdFilled(BoundClass(decl)) && DisplayFilled(BoundClass(decl))
  {
    var m := BoundClass(decl);
    var withId := CtorFields(m)["id" := NullText(IdOf(m))];
    assert Entry(withId, "cxxname");
    FormatLabelled("class ", "cxxname", withId, map[]);
  }

  lemma PrimitiveFields(typename: string, stem: string)
    requires '$' !in typename
    ensures IdFilled(Primitive(typename, stem)) && DisplayFilled(Primitive(typename, stem))
  {
    var m := Primitive(typename, stem);
    var withId := CtorFields(m)["id" := NullText(IdOf(m))];
    assert Entry(withId, "typename");
    FormatName("typename", withId, map[]);
  }

  /** `toString`: the display when it is a non-empty string, the id
      otherwise; `LLVMContext` names the global context. */
  function ToString(m: Marshaler): Option<string> {
    if m.LLVMContext? then Some("llvm::getGlobalContext()")
    else if DisplayOf(m).Some? && DisplayOf(m).value != "" then DisplayOf(m)
    else IdOf(m)
  }

  /** Every marshaler other than `ArrayRef` (and a reference to a class
      without a display) prints as its display; `ArrayRef` prints as its id,
      the element class's definition USR. */
  lemma ToStringShowsDisplay(m: Marshaler)
    ensures (m.BoundClass? || m.Enumeration? || m.IpList? || m.Twine? || m.StringRef? || m.STDString?) ==>
              ToString(m) == DisplayOf(m) && ToString(m).Some? && ToString(m).value != ""
    ensures m.Primitive? && m.typename != "" ==> ToString(m) == Some(m.typename)
    ensures m.ArrayRef? ==> ToString(m) == Some(UsrOf(DefinitionOf(m.actual)))
    ensures m.BoundClassRef? && m.clazz.BoundClass? ==> ToString(m) == ToString(m.clazz)
  {
    if m.BoundClass? || m.Enumeration? {
      assert |DisplayOf(m).value| >= 5;
    }
    if m.IpList? {
      assert |DisplayOf(m).value| >= 13;
    }
  }

  // Capabilities

  /** Whether the marshaler has a `toV8` formatter. */
  predicate HasToV8(m: Marshaler) {
    !(m.LLVMContext? || m.Twine?)
  }

  /** Whether the marshaler has a `fromV8` formatter. */
  predicate HasFromV8(m: Marshaler) {
    !(m.LLVMContext? || m.IpList?)
  }

  /** Whether the marshaler has a `test` formatter. */
  predicate HasTest(m: Marshaler) {
    !m.LLVMContext?
  }

  const NotAnObject := "TypeError: Cannot use 'in' operator"

  /** `isSynthetic(m)`: only `LLVMContext` synthesizes its value; asking
      of `null` throws. */
  function IsSynthetic(m: Option<Marshaler>): (r: Result<bool>)
    ensures r.Throw? <==> m.None?
    ensures r.Ok? ==> (r.value <==> m.value == LLVMContext)
  {
    if m.None? then Throw(NotAnObject) else Ok(m.value.LLVMContext?)
  }

  /** `canMarshalToV8(m)`. */
  function CanMarshalToV8(m: Option<Marshaler>): (r: bool)
    ensures r <==> m.Some? && !(m.value.LLVMContext? || m.value.Twine?)
  {
    m.Some? && HasToV8(m.value)
  }

  /** `canMarshalFromV8(m)`: a `fromV8` formatter or a synthesized value. */
  function CanMarshalFromV8(m: Option<Marshaler>): (r: bool)
    ensures r <==> m.Some? && !m.value.IpList?
  {
    m.Some? && (HasFromV8(m.value) || IsSynthetic(m).value)
  }

  // Formatters

  /** The `toV8` template of a descriptor whose `toV8` is a string. */
  function ToV8Template(m: Marshaler): string {
    match m
    case BoundClass(_) => Named("name") + ".Wrap(" + Named("val") + ")"
    case Primitive(_, _) => Named("id") + "_TO_V8(" + Named("val") + ")"
    case StringRef => "STRINGREF_TO_V8(" + Named("val") + ")"
    case STDString => "STDSTRING_TO_V8(" + Named("val") + ")"
    case IpList(_, _) =>
      "IPLIST_TO_V8(" + Eval("clazz.name") + ", " + Eval("clazz.cxxname") + ", " + Eval("actual.display()") + ", " + Named("val") + ")"
    case ArrayRef(_, _) => "ArrayRefToV8<" + Eval("actual.display()") + ">(" + Named("val") + ", " + Eval("clazz.name") + ")"
    case Enumeration(_) => "ENUM_TO_V8(" + Named("cxxname") + ", " + Named("val") + ")"
    case _ => ""
  }

  /** The `fromV8` template of a descriptor whose `fromV8` is a string. */
  function FromV8Template(m: Marshaler): string {
    match m
    case BoundClass(_) => Named("name") + ".Unwrap(" + Named("val") + ")"
    case Primitive(_, _) => Named("id") + "_FROM_V8(" + Named("val") + ")"
    case Twine => "TWINE_FROM_V8(" + Named("val") + ")"
    case StringRef => "STRINGREF_FROM_V8(" + Named("val") + ")"
    case STDString => "STDSTRING_FROM_V8(" + Named("val") + ")"
    case ArrayRef(_, _) => "ArrayRefFromV8<" + Eval("actual.display()") + ">(" + Named("val") + ", " + Eval("clazz.name") + ")"
    case Enumeration(_) => "ENUM_FROM_V8(" + Named("cxxname") + ", " + Named("val") + ")"
    case _ => ""
  }

  /** The `test` template of a descriptor whose `test` is a string. */
  function TestTemplate(m: Marshaler): string {
    match m
    case BoundClass(_) => Named("name") + ".Is(" + Named("val") + ")"
    case Primitive(_, _) => "IS_" + Named("id") + "(" + Named("val") + ")"
    case Twine => "IS_TWINE(" + Named("val") + ")"
    case StringRef => "IS_STRINGREF(" + Named("val") + ")"
    case STDString => "IS_STDSTRING(" + Named("val") + ")"
    case IpList(_, _) => "IS_IPLIST(" + Named("val") + ")"
    case ArrayRef(_, _) => "IS_ARRAYREF(" + Named("val") + ")"
    case Enumeration(_) => "IS_ENUM(" + Named("val") + ")"
    case _ => ""
  }

  /** Calling a formatter the delegate does not have. */
  const NotAFunction := "TypeError: undefined is not a function"

  /** The address of the C++ expression `val`. */
  function AddressOf(val: string): string {
    "&(" + val + ")"
  }

  /** `m.toV8(val)`: a string template is formatted with the marshaler and
      `val`; a reference takes the address and delegates to its class. */
  function ToV8(m: Marshaler, val: string): Result<string>
    requires HasToV8(m)
  {
    if m.BoundClassRef? then
      (if HasToV8(m.clazz) then ToV8(m.clazz, AddressOf(val)) else Throw(NotAFunction))
    else FormatTemplate(ToV8Template(m), FormatterDict(m, val), Expressions(m))
  }

  /** `m.fromV8(val)`: a reference dereferences what its class produces. */
  function FromV8(m: Marshaler, val: string): Result<string>
    requires HasFromV8(m)
  {
    if m.BoundClassRef? then
      (if HasFromV8(m.clazz) then Prefixed("*", FromV8(m.clazz, val)) else Throw(NotAFunction))
    else FormatTemplate(FromV8Template(m), FormatterDict(m, val), Expressions(m))
  }

  /** `m.test(val)`: a reference asks its class. */
  function Test(m: Marshaler, val: string): Result<string>
    requires HasTest(m)
  {
    if m.BoundClassRef? then
      (if HasTest(m.clazz) then Test(m.clazz, val) else Throw(NotAFunction))
    else FormatTemplate(TestTemplate(m), FormatterDict(m, val), Expressions(m))
  }

  /** The templates of `Primitive`, over any dictionary. */
  lemma PrimitiveTemplates(dict: map<string, string>)
    requires Entry(dict, "id") && Entry(dict, "val")
    ensures FormatTemplate(ToV8Template(Primitive("", "")), dict, map[]) == Ok(dict["id"] + "_TO_V8(" + dict["val"] + ")")
    ensures FormatTemplate(FromV8Template(Primitive("", "")), dict, map[]) == Ok(dict["id"] + "_FROM_V8(" + dict["val"] + ")")
    ensures FormatTemplate(TestTemplate(Primitive("", "")), dict, map[]) == Ok("IS_" + dict["id"] + "(" + dict["val"] + ")")
  {
    Names();
    FormatCall("id", "_TO_V8(", "val", ")", dict, map[]);
    FormatCall("id", "_FROM_V8(", "val", ")", dict, map[]);
    FormatLeadCall("IS_", "id", "(", "val", ")", dict, map[]);
  }

  /** A primitive's snippets are the helper macros named by its stem. */
  lemma PrimitiveSnippets(typename: string, stem: string, val: string)
    requires '$' !in stem && '$' !in val
    ensures ToV8(Primitive(typename, stem), val) == Ok(stem + "_TO_V8(" + val + ")")
    ensures FromV8(Primitive(typename, stem), val) == Ok(stem + "_FROM_V8(" + val + ")")
    ensures Test(Primitive(typename, stem), val) == Ok("IS_" + stem + "(" + val + ")")
  {
    var dict := FormatterDict(Primitive(typename, stem), val);
    assert dict["id"] == stem && dict["val"] == val;
    PrimitiveTemplates(dict);
  }

  /** The templates of `BoundClass`, over any dictionary. */
  lemma ClassTemplates(dict: map<string, string>)
    requires Entry(dict, "name") && Entry(dict, "val")
    ensures FormatTemplate(ToV8Template(BoundClass(NullCursor)), dict, map[]) == Ok(dict["name"] + ".Wrap(" + dict["val"] + ")")
    ensures FormatTemplate(FromV8Template(BoundClass(NullCursor)), dict, map[]) == Ok(dict["name"] + ".Unwrap(" + dict["val"] + ")")
    ensures FormatTemplate(TestTemplate(BoundClass(NullCursor)), dict, map[]) == Ok(dict["name"] + ".Is(" + dict["val"] + ")")
  {
    Names();
    FormatCall("name", ".Wrap(", "val", ")", dict, map[]);
    FormatCall("name", ".Unwrap(", "val", ")", dict, map[]);
    FormatCall("name", ".Is(", "val", ")", dict, map[]);
  }

  /** A bound class goes through its wrapper class's `Wrap`, `Unwrap` and
      `Is`. */
  lemma ClassSnippets(decl: Cursor, val: string)
    requires '$' !in SpellingOf(decl) && '$' !in val
    ensures ToV8(BoundClass(decl), val) == Ok(SpellingOf(decl) + ".Wrap(" + val + ")")
    ensures FromV8(BoundClass(decl), val) == Ok(SpellingOf(decl) + ".Unwrap(" + val + ")")
    ensures Test(BoundClass(decl), val) == Ok(SpellingOf(decl) + ".Is(" + val + ")")
  {
    var dict := FormatterDict(BoundClass(decl), val);
    assert dict["name"] == SpellingOf(decl) && dict["val"] == val;
    ClassTemplates(dict);
  }

  /** A reference to a bound class takes the address on the way out and
      dereferences on the way in. */
  lemma BoundClassSnippets(decl: Cursor, actual: Cursor, val: string)
    requires '$' !in SpellingOf(decl) && '$' !in val
    ensures ToV8(BoundClassRef(actual, BoundClass(decl)), val) == Ok(SpellingOf(decl) + ".Wrap(" + AddressOf(val) + ")")
    ensures FromV8(BoundClassRef(actual, BoundClass(decl)), val) == Ok("*" + (SpellingOf(decl) + ".Unwrap(" + val + ")"))
    ensures Test(BoundClassRef(actual, BoundClass(decl)), val) == Ok(SpellingOf(decl) + ".Is(" + val + ")")
  {
    ClassSnippets(decl, val);
    ClassSnippets(decl, AddressOf(val));
  }

  /** The templates of the string types, over any dictionary. */
  lemma StringRefTemplates(dict: map<string, string>)
    requires Entry(dict, "val")
    ensures FormatTemplate(ToV8Template(StringRef), dict, map[]) == Ok("STRINGREF_TO_V8(" + dict["val"] + ")")
    ensures FormatTemplate(FromV8Template(StringRef), dict, map[]) == Ok("STRINGREF_FROM_V8(" + dict["val"] + ")")
    ensures FormatTemplate(FromV8Template(Twine), dict, map[]) == Ok("TWINE_FROM_V8(" + dict["val"] + ")")
  {
    Names();
    FormatWrapped("STRINGREF_TO_V8(", "val", ")", dict, map[]);
    FormatWrapped("STRINGREF_FROM_V8(", "val", ")", dict, map[]);
    FormatWrapped("TWINE_FROM_V8(", "val", ")", dict, map[]);
  }

  lemma STDStringTemplates(dict: map<string, string>)
    requires Entry(dict, "val")
    ensures FormatTemplate(ToV8Template(STDString), dict, map[]) == Ok("STDSTRING_TO_V8(" + dict["val"] + ")")
    ensures FormatTemplate(FromV8Template(STDString), dict, map[]) == Ok("STDSTRING_FROM_V8(" + dict["val"] + ")")
  {
    Names();
    FormatWrapped("STDSTRING_TO_V8(", "val", ")", dict, map[]);
    FormatWrapped("STDSTRING_FROM_V8(", "val", ")", dict, map[]);
  }

  /** The string types go through their own helpers; a `Twine` only comes
      in. */
  lemma StringSnippets(val: string)
    requires '$' !in val
    ensures ToV8(StringRef, val) == Ok("STRINGREF_TO_V8(" + val + ")")
    ensures FromV8(StringRef, val) == Ok("STRINGREF_FROM_V8(" + val + ")")
    ensures ToV8(STDString, val) == Ok("STDSTRING_TO_V8(" + val + ")")
    ensures FromV8(STDString, val) == Ok("STDSTRING_FROM_V8(" + val + ")")
    ensures FromV8(Twine, val) == Ok("TWINE_FROM_V8(" + val + ")")
  {
    assert FormatterDict(StringRef, val)["val"] == val;
    StringRefTemplates(FormatterDict(StringRef, val));
    assert FormatterDict(STDString, val)["val"] == val;
    STDStringTemplates(FormatterDict(STDString, val));
    assert FormatterDict(Twine, val)["val"] == val;
    StringRefTemplates(FormatterDict(Twine, val));
  }

  /** The `toV8` template of `iplist`, over any dictionary and values of
      its expressions. */
  lemma IpListTemplate(dict: map<string, string>, exprs: map<string, string>)
    requires "clazz.name" in exprs && "clazz.cxxname" in exprs && "actual.display()" in exprs && Entry(dict, "val")
    ensures FormatTemplate(ToV8Template(IpList(NullCursor, LLVMContext)), dict, exprs) ==
              Ok("IPLIST_TO_V8(" + exprs["clazz.name"] + ", " + exprs["clazz.cxxname"] + ", " + exprs["actual.display()"] + ", " + dict["val"] + ")")
  {
    Names();
    ContainerValues(NullCursor, LLVMContext);
    FormatThreeExprsName("IPLIST_TO_V8(", "clazz.name", ", ", "clazz.cxxname", ", ", "actual.display()", ", ", "val", ")", dict, exprs);
  }

  /** An intrusive list of bound-class elements goes out through the
      `IPLIST_TO_V8` helper, told the wrapper class, the element's C++ name
      and the list's element type. */
  lemma IpListSnippet(actual: Cursor, decl: Cursor, val: string)
    requires '$' !in val
    ensures ToV8(IpList(actual, BoundClass(decl)), val) ==
              Ok("IPLIST_TO_V8(" + SpellingOf(decl) + ", " + QualifiedName(decl) + ", " + DisplayNameOf(actual) + ", " + val + ")")
  {
    var m := IpList(actual, BoundClass(decl));
    ValEntry(m, val);
    ContainerValues(actual, BoundClass(decl));
    IpListTemplate(FormatterDict(m, val), Expressions(m));
  }

  /** The `toV8` and `fromV8` templates of `ArrayRef`, over any dictionary
      and values of its expressions. */
  lemma ArrayRefTemplates(dict: map<string, string>, exprs: map<string, string>)
    requires "clazz.name" in exprs && "actual.display()" in exprs && Entry(dict, "val")
    ensures FormatTemplate(ToV8Template(ArrayRef(NullCursor, LLVMContext)), dict, exprs) ==
              Ok("ArrayRefToV8<" + exprs["actual.display()"] + ">(" + dict["val"] + ", " + exprs["clazz.name"] + ")")
    ensures FormatTemplate(FromV8Template(ArrayRef(NullCursor, LLVMContext)), dict, exprs) ==
              Ok("ArrayRefFromV8<" + exprs["actual.display()"] + ">(" + dict["val"] + ", " + exprs["clazz.name"] + ")")
  {
    Names();
    ContainerValues(NullCursor, LLVMContext);
    FormatExprNameExpr("ArrayRefToV8<", "actual.display()", ">(", "val", ", ", "clazz.name", ")", dict, exprs);
    FormatExprNameExpr("ArrayRefFromV8<", "actual.display()", ">(", "val", ", ", "clazz.name", ")", dict, exprs);
  }

  /** An `ArrayRef` of bound-class elements goes through the `ArrayRefToV8`
      and `ArrayRefFromV8` templates, instantiated at the element type and
      told the wrapper class. */
  lemma ArrayRefSnippets(actual: Cursor, decl: Cursor, val: string)
    requires '$' !in val
    ensures ToV8(ArrayRef(actual, BoundClass(decl)), val) ==
              Ok("ArrayRefToV8<" + DisplayNameOf(actual) + ">(" + val + ", " + SpellingOf(decl) + ")")
    ensures FromV8(ArrayRef(actual, BoundClass(decl)), val) ==
              Ok("ArrayRefFromV8<" + DisplayNameOf(actual) + ">(" + val + ", " + SpellingOf(decl) + ")")
  {
    var m := ArrayRef(actual, BoundClass(decl));
    ValEntry(m, val);
    ContainerValues(actual, BoundClass(decl));
    ArrayRefTemplates(FormatterDict(m, val), Expressions(m));
  }

  /** The templates of `Enumeration`, over any dictionary. */
  lemma EnumTemplates(dict: map<string, string>)
    requires Entry(dict, "cxxname") && Entry(dict, "val")
    ensures FormatTemplate(ToV8Template(Enumeration(NullCursor)), dict, map[]) == Ok("ENUM_TO_V8(" + dict["cxxname"] + ", " + dict["val"] + ")")
    ensures FormatTemplate(FromV8Template(Enumeration(NullCursor)), dict, map[]) == Ok("ENUM_FROM_V8(" + dict["cxxname"] + ", " + dict["val"] + ")")
  {
    Names();
    FormatLeadCall("ENUM_TO_V8(", "cxxname", ", ", "val", ")", dict, map[]);
    FormatLeadCall("ENUM_FROM_V8(", "cxxname", ", ", "val", ")", dict, map[]);
  }

  /** An enum converts through integers, cast to its qualified name. */
  lemma EnumSnippets(decl: Cursor, val: string)
    requires '$' !in QualifiedName(decl) && '$' !in val
    ensures ToV8(Enumeration(decl), val) == Ok("ENUM_TO_V8(" + QualifiedName(decl) + ", " + val + ")")
    ensures FromV8(Enumeration(decl), val) == Ok("ENUM_FROM_V8(" + QualifiedName(decl) + ", " + val + ")")
  {
    var dict := FormatterDict(Enumeration(decl), val);
    assert dict["cxxname"] == QualifiedName(decl) && dict["val"] == val;
    EnumTemplates(dict);
  }

  // Primitive ids

  function UpperChar(ch: char): char {
    if 'a' <= ch <= 'z' then (ch as int - 32) as char else ch
  }

  /** `toUpperCase`, for ASCII text. */
  function ToUpper(s: string): string {
    seq(|s|, i requires 0 <= i < |s| => UpperChar(s[i]))
  }

  /** `Primitive(typename)`: the factory's `id`, the upper-cased type name,
      is the stem of the helper macros its snippets call. */
  function MakePrimitive(typename: string): Marshaler {
    Primitive(typename, ToUpper(typename))
  }

  predicate IsPrimitiveKind(k: TypeKind) {
    k == Void || k == Bool || k == UInt || k == ULong || k == ULongLong ||
    k == TypeKind.Int || k == Long || k == LongLong || k == Double
  }

  /** clang_getTypeKindSpelling, which the bridge's `type.spelling()`
      answers for the primitive kinds. */
  function KindSpelling(k: TypeKind): string
    requires IsPrimitiveKind(k)
  {
    match k
    case Void => "Void"
    case Bool => "Bool"
    case UInt => "UInt"
    case ULong => "ULong"
    case ULongLong => "ULongLong"
    case Int => "Int"
    case Long => "Long"
    case LongLong => "LongLong"
    case Double => "Double"
  }

  /** The stems of the conversion helpers by primitive kind (`UINT_TO_V8`,
      `UINT_FROM_V8`, `IS_UINT` and their kin; `VOID` for `void`). */
  function MacroStem(k: TypeKind): string
    requires IsPrimitiveKind(k)
  {
    match k
    case Void => "VOID"
    case Bool => "BOOL"
    case UInt => "UINT"
    case ULong => "ULONG"
    case ULongLong => "ULONGLONG"
    case Int => "INT"
    case Long => "LONG"
    case LongLong => "LONGLONG"
    case Double => "DOUBLE"
  }

  /** The primitive marshaler built from a kind's spelling uses the helper
      macros of that kind. */
  lemma PrimitiveStems(k: TypeKind)
    requires IsPrimitiveKind(k)
    ensures MakePrimitive(KindSpelling(k)).stem == MacroStem(k)
    ensures '$' !in MacroStem(k)
  {
    assert ToUpper(KindSpelling(k)) == MacroStem(k);
  }

  /** A primitive kind's snippets are its helper macros applied to the
      value. */
  lemma PrimitiveKindSnippets(k: TypeKind, val: string)
    requires IsPrimitiveKind(k) && '$' !in val
    ensures ToV8(MakePrimitive(KindSpelling(k)), val) == Ok(MacroStem(k) + "_TO_V8(" + val + ")")
    ensures FromV8(MakePrimitive(KindSpelling(k)), val) == Ok(MacroStem(k) + "_FROM_V8(" + val + ")")
    ensures Test(MakePrimitive(KindSpelling(k)), val) == Ok("IS_" + MacroStem(k) + "(" + val + ")")
  {
    PrimitiveStems(k);
    PrimitiveSnippets(KindSpelling(k), MacroStem(k), val);
  }

  lemma SnippetText(stem: string)
    ensures stem + "_TO_V8(" + "x" + ")" == stem + "_TO_V8(x)"
  {
    assert "_TO_V8(" + "x" + ")" == "_TO_V8(x)";
    assert stem + "_TO_V8(" + "x" + ")" == stem + ("_TO_V8(" + "x" + ")");
  }

  /** For a canonical `int`, `toV8("x")` is `INT_TO_V8(x)`. */
  lemma IntSnippet()
    ensures ToV8(MakePrimitive(KindSpelling(TypeKind.Int)), "x") == Ok("INT_TO_V8(x)")
  {
    PrimitiveKindSnippets(TypeKind.Int, "x");
    IntText();
  }

  lemma IntText()
    ensures MacroStem(TypeKind.Int) + "_TO_V8(" + "x" + ")" == "INT_TO_V8(x)"
  {
    SnippetText("INT");
    assert "INT" + "_TO_V8(x)" == "INT_TO_V8(x)";
  }

  // ---------------------------------------------------------------------------
  // Bound classes and class lookup

  /** `findBoundBase(decl)`: the declaration's own registration, else that
      of its class definition, else the first registered base found through
      the definition's base specifiers, in child order. */
  function FindBoundBase(bound: map<string, Marshaler>, decl: Cursor): Option<Marshaler>
    decreases decl, 1
  {
    if UsrOf(decl) in bound then Some(bound[UsrOf(decl)])
    else
      var d := DefinitionOf(decl);
      if KindOf(d) != ClassDecl then None
      else if UsrOf(d) in bound then Some(bound[UsrOf(d)])
      else BoundBaseFrom(bound, d, 0)
  }

  /** The search through the children of a class definition from the `i`-th
      on: a base specifier whose search succeeds ends it. */
  function BoundBaseFrom(bound: map<string, Marshaler>, d: Cursor, i: nat): Option<Marshaler>
    requires i <= |ChildrenOf(d)|
    decreases d, 0, |ChildrenOf(d)| - i
  {
    if i == |ChildrenOf(d)| then None
    else
      var c := ChildrenOf(d)[i];
      var inherits := if KindOf(c) == CXXBaseSpecifier then FindBoundBase(bound, c) else None;
      if inherits.Some? then inherits else BoundBaseFrom(bound, d, i + 1)
  }

  /** The callback `findBoundBase` hands to `visit`; its state is
      `inherits`. */
  function BaseProbe(bound: map<string, Marshaler>): Callback<Option<Marshaler>> {
    (inherits: Option<Marshaler>, c: Cursor, p: Cursor) =>
      var next := if KindOf(c) == CXXBaseSpecifier then FindBoundBase(bound, c) else inherits;
      (next, Returned(if next.Some? then VisitBreak else VisitContinue))
  }

  lemma {:induction false} BaseProbeScan(bound: map<string, Marshaler>, d: Cursor, i: nat)
    requires i <= |ChildrenOf(d)|
    ensures ScanFrom(BaseProbe(bound), d, i, None).state == BoundBaseFrom(bound, d, i)
    ensures ScanFrom(BaseProbe(bound), d, i, None).Finished?
    decreases |ChildrenOf(d)| - i
  {
    if i < |ChildrenOf(d)| {
      var c := ChildrenOf(d)[i];
      if BaseProbe(bound)(None, c, d).0.None? {
        BaseProbeScan(bound, d, i + 1);
      }
    }
  }

  /** The search written as the source's visit of the definition's children
      ends with `inherits` holding what the child scan finds. */
  lemma BaseProbeVisit(bound: map<string, Marshaler>, d: Cursor)
    ensures Visit(BaseProbe(bound), d, None).state == BoundBaseFrom(bound, d, 0)
  {
    ShallowVisit(BaseProbe(bound), d, None);
    BaseProbeScan(bound, d, 0);
  }

  /** What the search finds is always a registered marshaler. */
  lemma {:induction false} FindBoundBaseIsBound(bound: map<string, Marshaler>, decl: Cursor)
    ensures FindBoundBase(bound, decl).Some? ==> FindBoundBase(bound, decl).value in bound.Values
    decreases decl, 1
  {
    if UsrOf(decl) !in bound {
      var d := DefinitionOf(decl);
      if KindOf(d) == ClassDecl && UsrOf(d) !in bound {
        BoundBaseFromIsBound(bound, d, 0);
      }
    }
  }

  lemma {:induction false} BoundBaseFromIsBound(bound: map<string, Marshaler>, d: Cursor, i: nat)
    requires i <= |ChildrenOf(d)|
    ensures BoundBaseFrom(bound, d, i).Some? ==> BoundBaseFrom(bound, d, i).value in bound.Values
    decreases d, 0, |ChildrenOf(d)| - i
  {
    if i < |ChildrenOf(d)| {
      var c := ChildrenOf(d)[i];
      if KindOf(c) == CXXBaseSpecifier {
        FindBoundBaseIsBound(bound, c);
      }
      BoundBaseFromIsBound(bound, d, i + 1);
    }
  }

  /** Whether the `j`-th child is a base specifier whose search succeeds. */
  predicate FoundAt(bound: map<string, Marshaler>, kids: seq<Cursor>, j: nat)
    requires j < |kids|
  {
    KindOf(kids[j]) == CXXBaseSpecifier && FindBoundBase(bound, kids[j]).Some?
  }

  /** The scan answers with the search result of the first base specifier
      (from the `i`-th child on) whose search succeeds, and with nothing
      when there is none. */
  lemma {:induction false} BoundBaseFromFirst(bound: map<string, Marshaler>, d: Cursor, i: nat)
    requires i <= |ChildrenOf(d)|
    ensures var kids := ChildrenOf(d); var r := BoundBaseFrom(bound, d, i);
            && (r.Some? ==> exists j :: i <= j < |kids| && FoundAt(bound, kids, j) && r == FindBoundBase(bound, kids[j]) &&
                                   forall k :: i <= k < j ==> !FoundAt(bound, kids, k))
            && (r.None? ==> forall j :: i <= j < |kids| ==> !FoundAt(bound, kids, j))
    decreases |ChildrenOf(d)| - i
  {
    var kids := ChildrenOf(d);
    if i < |kids| {
      BoundBaseFromFirst(bound, d, i + 1);
      if !FoundAt(bound, kids, i) {
        var r := BoundBaseFrom(bound, d, i);
        if r.Some? {
          var j :| i + 1 <= j < |kids| && FoundAt(bound, kids, j) && r == FindBoundBase(bound, kids[j]) &&
                   forall k :: i + 1 <= k < j ==> !FoundAt(bound, kids, k);
          assert forall k :: i <= k < j ==> !FoundAt(bound, kids, k);
        }
      }
    }
  }

  /** `findDirectMarshaler(decl)`: only the declaration's own registration
      or that of its class definition. */
  function FindDirectMarshaler(bound: map<string, Marshaler>, decl: Cursor): (r: Option<Marshaler>)
    ensures r.Some? <==> UsrOf(decl) in bound || (KindOf(DefinitionOf(decl)) == ClassDecl && UsrOf(DefinitionOf(decl)) in bound)
  {
    if UsrOf(decl) in bound then Some(bound[UsrOf(decl)])
    else
      var d := DefinitionOf(decl);
      if KindOf(d) == ClassDecl && UsrOf(d) in bound then Some(bound[UsrOf(d)]) else None
  }

  /** A directly registered class is also what the base search finds; the
      base search differs only where the class itself is not registered. */
  lemma DirectBeforeBase(bound: map<string, Marshaler>, decl: Cursor)
    ensures FindDirectMarshaler(bound, decl).Some? ==> FindBoundBase(bound, decl) == FindDirectMarshaler(bound, decl)
    ensures FindDirectMarshaler(bound, decl).None? && FindBoundBase(bound, decl).Some? ==>
              KindOf(DefinitionOf(decl)) == ClassDecl &&
              FindBoundBase(bound, decl) == BoundBaseFrom(bound, DefinitionOf(decl), 0)
  {
  }

  /** `marshalClass(decl, direction)`: into the host a registered base will
      do; out of the host only the class itself. */
  function MarshalClass(bound: map<string, Marshaler>, decl: Cursor, direction: string): Option<Marshaler> {
    if direction == "toV8" then FindBoundBase(bound, decl) else FindDirectMarshaler(bound, decl)
  }

  // ---------------------------------------------------------------------------
  // marshalType

  /** `pointeeOf(type)`: the canonical declaration of the canonical type's
      pointee. */
  function PointeeOf(t: CType): Cursor {
    CanonicalOf(PointeeType(CanonicalType(t)).declaration)
  }

  /** `declOf(type)`: the canonical declaration of the canonical type. */
  function DeclOf(t: CType): Cursor {
    CanonicalOf(CanonicalType(t).declaration)
  }

  /** A container marshaler over the class of its element type. */
  function Container(bound: map<string, Marshaler>, holder: Cursor, direction: string, list: bool): Option<Marshaler> {
    var elemT := GuessFirstTemplateArgument(holder);
    if elemT.None? then None
    else
      var elemClass := MarshalClass(bound, elemT.value, direction);
      if elemClass.None? then None
      else if list then Some(IpList(elemT.value, elemClass.value))
      else Some(ArrayRef(elemT.value, elemClass.value))
  }

  /** The marshaler `marshalType(type, direction, paramDecl)` selects, as
      the factory is asked for it (before memoisation). */
  function SelectMarshaler(bound: map<string, Marshaler>, t: CType, direction: string, paramDecl: Cursor): Option<Marshaler> {
    var canonical := CanonicalType(t);
    match canonical.kind
    case Pointer => MarshalClass(bound, PointeeOf(t), direction)
    case LValueReference =>
      var pointee := PointeeOf(t);
      var spelling := SpellingOf(pointee);
      if spelling == "LLVMContext" then Some(LLVMContext)
      else if spelling == "basic_string" then Some(STDString)
      else if spelling == "Twine" then Some(Twine)
      else if spelling == "StringRef" then Some(StringRef)
      else if spelling == "iplist" then Container(bound, PointeeType(t).declaration, direction, true)
      else
        var pointeeClass := MarshalClass(bound, pointee, direction);
        if pointeeClass.None? then None else Some(BoundClassRef(pointee, pointeeClass.value))
    case Record =>
      var decl := DeclOf(t);
      if SpellingOf(decl) == "StringRef" then Some(StringRef)
      else if SpellingOf(decl) == "ArrayRef" then Container(bound, paramDecl, direction, false)
      else None
    case Enum => Some(Enumeration(DeclOf(t)))
    case _ =>
      if IsPrimitiveKind(canonical.kind) then Some(MakePrimitive(KindSpelling(canonical.kind))) else None
  }

  /** Whether every class a marshaler refers to is a registered one. */
  predicate UsesBound(m: Marshaler, bound: map<string, Marshaler>) {
    match m
    case BoundClass(_) => m in bound.Values
    case BoundClassRef(_, clazz) => clazz in bound.Values
    case IpList(_, clazz) => clazz in bound.Values
    case ArrayRef(_, clazz) => clazz in bound.Values
    case _ => true
  }

  /** The dispatch on the canonical kind: primitive kinds give a primitive
      named by the kind's spelling, whose snippets call that kind's helper
      macros, enums an enum marshaler of the declaration,
      references to the four string-like and context classes their fixed
      marshalers, pointers the class marshaler, other kinds nothing. */
  lemma SelectMarshalerDispatch(bound: map<string, Marshaler>, t: CType, direction: string, paramDecl: Cursor)
    ensures var c := CanonicalType(t); var r := SelectMarshaler(bound, t, direction, paramDecl);
            && (IsPrimitiveKind(c.kind) ==> r == Some(MakePrimitive(KindSpelling(c.kind))) && r.value.stem == MacroStem(c.kind))
            && (c.kind == Enum ==> r == Some(Enumeration(DeclOf(t))))
            && (c.kind == Pointer ==> r == MarshalClass(bound, PointeeOf(t), direction))
            && (c.kind == LValueReference && SpellingOf(PointeeOf(t)) == "LLVMContext" ==> r == Some(LLVMContext))
            && (c.kind == LValueReference && SpellingOf(PointeeOf(t)) == "basic_string" ==> r == Some(STDString))
            && (c.kind == LValueReference && SpellingOf(PointeeOf(t)) == "Twine" ==> r == Some(Twine))
            && (c.kind == LValueReference && SpellingOf(PointeeOf(t)) == "StringRef" ==> r == Some(StringRef))
            && (!IsPrimitiveKind(c.kind) && !(c.kind in {Enum, Pointer, LValueReference, Record}) ==> r == None)
  {
    var c := CanonicalType(t);
    if IsPrimitiveKind(c.kind) {
      PrimitiveStems(c.kind);
    }
  }

  /** Into the host or out of it, the class lookup only ever answers with a
      registered marshaler. */
  lemma MarshalClassIsBound(bound: map<string, Marshaler>, decl: Cursor, direction: string)
    ensures MarshalClass(bound, decl, direction).Some? ==> MarshalClass(bound, decl, direction).value in bound.Values
  {
    FindBoundBaseIsBound(bound, decl);
  }

  /** Every class the selected marshaler refers to is a registered one. */
  lemma SelectUsesBound(bound: map<string, Marshaler>, t: CType, direction: string, paramDecl: Cursor)
    requires forall u :: u in bound ==> bound[u].BoundClass?
    ensures var r := SelectMarshaler(bound, t, direction, paramDecl);
            r.Some? ==> UsesBound(r.value, bound)
  {
    var kind := CanonicalType(t).kind;
    if kind == Pointer || kind == LValueReference {
      MarshalClassIsBound(bound, PointeeOf(t), direction);
      ContainerUsesBound(bound, PointeeType(t).declaration, direction, true);
    } else if kind == Record {
      ContainerUsesBound(bound, paramDecl, direction, false);
    }
  }

  lemma ContainerUsesBound(bound: map<string, Marshaler>, holder: Cursor, direction: string, list: bool)
    ensures var r := Container(bound, holder, direction, list);
            r.Some? ==> r.value.IpList? == list && UsesBound(r.value, bound)
  {
    var elemT := GuessFirstTemplateArgument(holder);
    if elemT.Some? {
      MarshalClassIsBound(bound, elemT.value, direction);
    }
  }

  // ---------------------------------------------------------------------------
  // The registry: bound classes and factory caches

  /** The factories, each with its own cache. */
  datatype Family = BoundClassFamily | BoundClassRefFamily | PrimitiveFamily | IpListFamily | ArrayRefFamily | EnumFamily

  function FamilyOf(m: Marshaler): Family
    requires HasFactory(m)
  {
    match m
    case BoundClass(_) => BoundClassFamily
    case BoundClassRef(_, _) => BoundClassRefFamily
    case Primitive(_, _) => PrimitiveFamily
    case IpList(_, _) => IpListFamily
    case ArrayRef(_, _) => ArrayRefFamily
    case Enumeration(_) => EnumFamily
  }

  /** The cache slot of a factory product: its factory and `id` as a
      property key. */
  function Key(m: Marshaler): (Family, string)
    requires HasFactory(m)
  {
    (FamilyOf(m), NullText(IdOf(m)))
  }

  /** `cache[obj.id] || (cache[obj.id] = obj)`: the first product with an id
      stays. */
  function Memo(cache: map<(Family, string), Marshaler>, obj: Marshaler): map<(Family, string), Marshaler>
    requires HasFactory(obj)
  {
    if Key(obj) in cache then cache else cache[Key(obj) := obj]
  }

  /** The cache after a run of factory calls. */
  function MemoAll(cache: map<(Family, string), Marshaler>, objs: seq<Marshaler>): map<(Family, string), Marshaler>
    requires forall i :: 0 <= i < |objs| ==> HasFactory(objs[i])
    decreases |objs|
  {
    if objs == [] then cache else MemoAll(Memo(cache, objs[0]), objs[1..])
  }

  /** After a run of factory calls every slot holds what it held before, or
      else the first product of the run with that slot's key; no other slot
      is filled. */
  lemma {:induction false} MemoFirstWins(cache: map<(Family, string), Marshaler>, objs: seq<Marshaler>, k: (Family, string))
    requires forall i :: 0 <= i < |objs| ==> HasFactory(objs[i])
    decreases |objs|
    ensures var after := MemoAll(cache, objs);
            && (k in cache ==> k in after && after[k] == cache[k])
            && (k !in cache ==>
                  (k in after <==> exists i :: 0 <= i < |objs| && Key(objs[i]) == k) &&
                  (k in after ==> exists i :: 0 <= i < |objs| && after[k] == objs[i] && Key(objs[i]) == k &&
                                             forall j :: 0 <= j < i ==> Key(objs[j]) != k))
  {
    if objs != [] {
      var next := Memo(cache, objs[0]);
      MemoFirstWins(next, objs[1..], k);
      var after := MemoAll(cache, objs);
      if k !in cache {
        if Key(objs[0]) == k {
          assert after[k] == objs[0];
        } else {
          assert k !in next;
          if k in after {
            var i :| 0 <= i < |objs[1..]| && after[k] == objs[1..][i] && Key(objs[1..][i]) == k &&
                     forall j :: 0 <= j < i ==> Key(objs[1..][j]) != k;
            assert objs[i + 1] == objs[1..][i];
            assert forall j :: 0 <= j < i + 1 ==> Key(objs[j]) != k by {
              forall j | 0 <= j < i + 1 ensures Key(objs[j]) != k {
                if j > 0 { assert objs[j] == objs[1..][j - 1]; }
              }
            }
          } else {
            forall i | 0 <= i < |objs| ensures Key(objs[i]) != k {
              if i > 0 { assert objs[i] == objs[1..][i - 1]; }
            }
          }
        }
      }
    }
  }

  /** Every cached product sits in the slot of its own key. */
  ghost predicate CacheValid(cache: map<(Family, string), Marshaler>) {
    forall k :: k in cache ==> HasFactory(cache[k]) && Key(cache[k]) == k
  }

  /** The bound classes are exactly the products of the `BoundClass`
      factory, each registered under the USR of its declaration. */
  ghost predicate BoundValid(bound: map<string, Marshaler>, cache: map<(Family, string), Marshaler>) {
    && (forall u :: u in bound ==> bound[u].BoundClass? && UsrOf(bound[u].decl) == u &&
                                   (BoundClassFamily, u) in cache && cache[(BoundClassFamily, u)] == bound[u])
    && (forall k :: k in cache && k.0 == BoundClassFamily ==> k.1 in bound)
  }

  class Registry {
    /** `bound_classes`, by USR. */
    var bound: map<string, Marshaler>
    /** The factories' caches, by factory and id. */
    var cache: map<(Family, string), Marshaler>

    ghost predicate Valid()
      reads this
    {
      CacheValid(cache) && BoundValid(bound, cache)
    }

    constructor()
      ensures Valid() && bound == map[] && cache == map[]
    {
      bound := map[];
      cache := map[];
    }

    /** A factory call: the object built from the arguments, unless one
        with the same id was built before, in which case that one. */
    method Make(obj: Marshaler) returns (m: Marshaler)
      requires HasFactory(obj)
      modifies this
      ensures cache == Memo(old(cache), obj) && m == cache[Key(obj)]
      ensures bound == old(bound)
    {
      var key := Key(obj);
      if key in cache {
        m := cache[key];
      } else {
        cache := cache[key := obj];
        m := obj;
      }
    }

    /** `addBoundClass(decl)`: a USR registered before fails the assertion;
        otherwise the class's marshaler is registered and returned. */
    method AddBoundClass(decl: Cursor) returns (r: Result<Marshaler>)
      requires Valid()
      modifies this
      ensures Valid()
      ensures UsrOf(decl) in old(bound) ==> r == Throw(MissingName) && bound == old(bound) && cache == old(cache)
      ensures UsrOf(decl) !in old(bound) ==>
                r == Ok(BoundClass(decl)) && bound == old(bound)[UsrOf(decl) := BoundClass(decl)] &&
                cache == old(cache)[(BoundClassFamily, UsrOf(decl)) := BoundClass(decl)]
    {
      var usr := UsrOf(decl);
      if usr in bound {
        return Throw(MissingName);
      }
      assert (BoundClassFamily, usr) !in cache;
      var m := Make(BoundClass(decl));
      bound := bound[usr := m];
      r := Ok(m);
    }

    /** `factory.getInstances()`: the products cached so far. */
    function Instances(f: Family): (r: set<Marshaler>)
      requires CacheValid(cache)
      reads this
      ensures forall m :: m in r ==> HasFactory(m) && FamilyOf(m) == f && Key(m) in cache && cache[Key(m)] == m
    {
      set k | k in cache && k.0 == f :: cache[k]
    }

    /** `marshalType(type, direction, paramDecl)`: the selected marshaler,
        memoised by the factory that builds it. */
    method MarshalType(t: CType, direction: string, paramDecl: Cursor) returns (r: Option<Marshaler>)
      requires Valid()
      modifies this
      ensures Valid() && bound == old(bound)
      ensures var s := SelectMarshaler(old(bound), t, direction, paramDecl);
              && (s.None? ==> r.None? && cache == old(cache))
              && (s.Some? && !Built(s.value) ==> r == s && cache == old(cache))
              && (s.Some? && Built(s.value) ==> cache == Memo(old(cache), s.value) && r == Some(cache[Key(s.value)]))
    {
      var s := SelectMarshaler(bound, t, direction, paramDecl);
      if s.None? || !Built(s.value) {
        return s;
      }
      var m := Make(s.value);
      r := Some(m);
    }
  }

  /** The marshalers `marshalType` asks a factory for (class marshalers it
      takes from the registry as they are). */
  predicate Built(m: Marshaler) {
    m.BoundClassRef? || m.Primitive? || m.IpList? || m.ArrayRef? || m.Enumeration?
  }

  /** What a factory call hands back always has the id and factory of what
      was asked for, so a memoised marshaler stands in for the requested one
      in every snippet keyed by id. */
  lemma MemoKeepsKey(cache: map<(Family, string), Marshaler>, obj: Marshaler)
    requires CacheValid(cache) && HasFactory(obj)
    ensures CacheValid(Memo(cache, obj))
    ensures var m := Memo(cache, obj)[Key(obj)]; HasFactory(m) && IdOf(m) == IdOf(obj) && FamilyOf(m) == FamilyOf(obj)
  {
    var m := Memo(cache, obj)[Key(obj)];
    assert Key(m) == Key(obj);
    assert IdOf(m).Some? && IdOf(obj).Some?;
  }
}
