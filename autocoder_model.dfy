/**
 * The `Model` entity of the model autocoder (tools/autocoder.py): the
 * validation of a whole decoded YAML document and the `code` property, which
 * appends the C++ mixin header text group by group and caches it.
 */
module AutocoderModel {
  import opened Wrappers
  import opened AutocoderNames
  import opened AutocoderEntities

  /** A decoded YAML document, split the way `Model(**data)` binds its keys:
    * the six named parameters (a missing list defaults to empty), the
    * comment, and the names of any other keys. */
  datatype ModelDoc = ModelDoc(
    name: Option<string>,
    typ: Option<string>,
    args: seq<string>,
    params: seq<Record>,
    adds: seq<Record>,
    gets: seq<Record>,
    comment: Option<string>,
    extra: set<string>)

  /** A validated model. Its base type is always `Model`. */
  datatype ModelDef = ModelDef(
    name: string,
    args: seq<string>,
    params: seq<Variable>,
    adds: seq<AddsField>,
    gets: seq<GetsField>)

  /** Every element is accepted by its constructor. */
  predicate AllOk<A, B>(xs: seq<A>, f: A -> Result<B, Error>) {
    forall i :: 0 <= i < |xs| ==> f(xs[i]).Ok?
  }

  /** `ys` holds what the constructor builds from each element of `xs`. */
  ghost predicate Built<A, B>(xs: seq<A>, f: A -> Result<B, Error>, ys: seq<B>) {
    |ys| == |xs| && forall i :: 0 <= i < |xs| ==> f(xs[i]) == Ok(ys[i])
  }

  /** `e` is the error of the first element the constructor refuses. */
  ghost predicate FirstFailure<A, B>(xs: seq<A>, f: A -> Result<B, Error>, e: Error) {
    exists i :: 0 <= i < |xs| && f(xs[i]) == Err(e) && forall j :: 0 <= j < i ==> f(xs[j]).Ok?
  }

  /** A list comprehension whose element constructor may raise: the first
    * element that fails decides the error. */
  function MapAll<A, B>(xs: seq<A>, f: A -> Result<B, Error>): (r: Result<seq<B>, Error>)
    ensures r.Ok? <==> AllOk(xs, f)
    ensures r.Ok? ==> Built(xs, f, r.value)
    ensures r.Err? ==> FirstFailure(xs, f, r.error)
  {
    if xs == [] then Ok([])
    else
      var head := f(xs[0]);
      if head.Err? then
        assert f(xs[0]) == Err(head.error);
        Err(head.error)
      else
        var tail := MapAll(xs[1..], f);
        if tail.Err? then
          ghost var i :| 0 <= i < |xs[1..]| && f(xs[1..][i]) == Err(tail.error) && forall j :: 0 <= j < i ==> f(xs[1..][j]).Ok?;
          assert f(xs[i + 1]) == Err(tail.error) && forall j :: 0 <= j < i + 1 ==> f(xs[j]).Ok?;
          Err(tail.error)
        else
          assert forall i :: 1 <= i < |xs| ==> f(xs[i]) == f(xs[1..][i - 1]);
          Ok([head.value] + tail.value)
  }

  /** What every accepted model guarantees about its name and its members. */
  predicate ValidModel(d: ModelDef) {
    MatchesModel(d.name)
    && (forall i :: 0 <= i < |d.args| ==> MatchesArg(d.args[i]))
    && (forall i :: 0 <= i < |d.params| ==> ValidVariable(d.params[i]))
    && (forall i :: 0 <= i < |d.adds| ==> ValidAdds(d.adds[i]))
    && (forall i :: 0 <= i < |d.gets| ==> ValidGets(d.gets[i]))
  }

  /** The model name is given and matches `_re_model`. */
  predicate NameOk(name: Option<string>) {
    name.Some? && MatchesModel(name.value)
  }

  /** The checks made before any member is built: comment, keys, name and
    * type. */
  predicate HeaderOk(doc: ModelDoc) {
    CheckCommented(doc.comment, doc.extra).None? && NameOk(doc.name) && doc.typ == Some("Model")
  }

  /** A document `Model(**data)` accepts: the header checks pass and every
    * argument, parameter and state field is accepted by its own
    * constructor. */
  predicate Accepted(doc: ModelDoc) {
    HeaderOk(doc) && AllOk(doc.args, NewArgument) && AllOk(doc.params, NewVariable)
    && AllOk(doc.adds, NewAdds) && AllOk(doc.gets, NewGets)
  }

  /** Model.__init__: the comment and extraneous keys first, then the name
    * (`_re_model`), the type (exactly "Model"), and the members group by
    * group, each in input order. Each group's error is that of its first
    * refused element. */
  function NewModel(doc: ModelDoc): (r: Result<ModelDef, Error>)
    ensures r.Ok? <==> Accepted(doc)
    ensures r.Ok? ==> doc.name == Some(r.value.name)
    ensures r.Ok? ==> Built(doc.args, NewArgument, r.value.args) && Built(doc.params, NewVariable, r.value.params)
                      && Built(doc.adds, NewAdds, r.value.adds) && Built(doc.gets, NewGets, r.value.gets)
    ensures CheckCommented(doc.comment, doc.extra).Some? ==> r == Err(CheckCommented(doc.comment, doc.extra).value)
    ensures CheckCommented(doc.comment, doc.extra).None? && !NameOk(doc.name) ==> r == Err(InvalidModelName(doc.name))
    ensures CheckCommented(doc.comment, doc.extra).None? && NameOk(doc.name) && doc.typ != Some("Model")
            ==> r == Err(InvalidModelType(doc.typ))
    ensures HeaderOk(doc) && !AllOk(doc.args, NewArgument) ==> r.Err? && FirstFailure(doc.args, NewArgument, r.error)
    ensures HeaderOk(doc) && AllOk(doc.args, NewArgument) && !AllOk(doc.params, NewVariable)
            ==> r.Err? && FirstFailure(doc.params, NewVariable, r.error)
    ensures HeaderOk(doc) && AllOk(doc.args, NewArgument) && AllOk(doc.params, NewVariable) && !AllOk(doc.adds, NewAdds)
            ==> r.Err? && FirstFailure(doc.adds, NewAdds, r.error)
    ensures (HeaderOk(doc) && AllOk(doc.args, NewArgument) && AllOk(doc.params, NewVariable) && AllOk(doc.adds, NewAdds)
             && !AllOk(doc.gets, NewGets)) ==> r.Err? && FirstFailure(doc.gets, NewGets, r.error)
  {
    var check := CheckCommented(doc.comment, doc.extra);
    if check.Some? then Err(check.value)
    else if doc.name.None? || doc.name.value == "" || !MatchesModel(doc.name.value) then Err(InvalidModelName(doc.name))
    else if doc.typ.None? || doc.typ.value == "" || doc.typ.value != "Model" then Err(InvalidModelType(doc.typ))
    else
      var args := MapAll(doc.args, NewArgument);
      if args.Err? then Err(args.error)
      else
        var params := MapAll(doc.params, NewVariable);
        if params.Err? then Err(params.error)
        else
          var adds := MapAll(doc.adds, NewAdds);
          if adds.Err? then Err(adds.error)
          else
            var gets := MapAll(doc.gets, NewGets);
            if gets.Err? then Err(gets.error)
            else Ok(ModelDef(doc.name.value, args.value, params.value, adds.value, gets.value))
  }

  /** Every accepted model has a valid name and valid members, and its base
    * type is `Model`. */
  lemma NewModelValid(doc: ModelDoc)
    requires NewModel(doc).Ok?
    ensures ValidModel(NewModel(doc).value) && doc.typ == Some("Model")
  {
    var m := NewModel(doc).value;
    BuiltArgsValid(doc.args, m.args);
    BuiltParamsValid(doc.params, m.params);
    BuiltAddsValid(doc.adds, m.adds);
    BuiltGetsValid(doc.gets, m.gets);
  }

  lemma BuiltArgsValid(xs: seq<string>, ys: seq<string>)
    requires Built(xs, NewArgument, ys)
    ensures forall i :: 0 <= i < |ys| ==> MatchesArg(ys[i])
  {
    forall i | 0 <= i < |ys| ensures MatchesArg(ys[i]) {
      assert NewArgument(xs[i]) == Ok(ys[i]);
    }
  }

  lemma BuiltParamsValid(xs: seq<Record>, ys: seq<Variable>)
    requires Built(xs, NewVariable, ys)
    ensures forall i :: 0 <= i < |ys| ==> ValidVariable(ys[i])
  {
    forall i | 0 <= i < |ys| ensures ValidVariable(ys[i]) {
      assert NewVariable(xs[i]) == Ok(ys[i]);
    }
  }

  lemma BuiltAddsValid(xs: seq<Record>, ys: seq<AddsField>)
    requires Built(xs, NewAdds, ys)
    ensures forall i :: 0 <= i < |ys| ==> ValidAdds(ys[i])
  {
    forall i | 0 <= i < |ys| ensures ValidAdds(ys[i]) {
      assert NewAdds(xs[i]) == Ok(ys[i]);
    }
  }

  lemma BuiltGetsValid(xs: seq<Record>, ys: seq<GetsField>)
    requires Built(xs, NewGets, ys)
    ensures forall i :: 0 <= i < |ys| ==> ValidGets(ys[i])
  {
    forall i | 0 <= i < |ys| ensures ValidGets(ys[i]) {
      assert NewGets(xs[i]) == Ok(ys[i]);
    }
  }


  /* ---------------------------------------------------------------------- */
  /* The emitted header                                                     */
  /* ---------------------------------------------------------------------- */

  /** Python's `str.upper` on the ASCII letters a model name is made of. */
  function Upper(s: string): (r: string)
    ensures |r| == |s|
    ensures forall i :: 0 <= i < |s| ==> r[i] == if IsLower(s[i]) then (s[i] as int - 32) as char else s[i]
  {
    if s == [] then [] else [if IsLower(s[0]) then (s[0] as int - 32) as char else s[0]] + Upper(s[1..])
  }

  /** The concatenation of `f(x)` over `xs`, in order. */
  function Concat<T>(xs: seq<T>, f: T -> string): string {
    if xs == [] then "" else f(xs[0]) + Concat(xs[1..], f)
  }

  lemma {:induction false} ConcatSnoc<T>(xs: seq<T>, x: T, f: T -> string)
    ensures Concat(xs + [x], f) == Concat(xs, f) + f(x)
  {
    if xs == [] {
      assert xs + [x] == [x];
    } else {
      assert (xs + [x])[0] == xs[0];
      assert (xs + [x])[1..] == xs[1..] + [x];
      ConcatSnoc(xs[1..], x, f);
    }
  }

  function Preamble(name: string): string {
    "/* This file has been autogenerated. Do not edit manually. */\n"
    + "\n"
    + "#ifndef PSIM_AUTOCODED_" + Upper(name) + "_HPP_\n"
    + "#define PSIM_AUTOCODED_" + Upper(name) + "_HPP_\n"
    + "\n"
    + "#include <psim/core/configuration.hpp>\n"
    + "#include <psim/core/model.hpp>\n"
    + "#include <psim/core/parameter.hpp>\n"
    + "#include <psim/core/state.hpp>\n"
    + "#include <psim/core/state_field_lazy.hpp>\n"
    + "#include <psim/core/state_field_valued.hpp>\n"
    + "#include <psim/core/types.hpp>\n"
    + "\n"
    + "#include <functional>\n"
    + "\n"
    + "namespace psim {\n"
    + "\n"
    + "template <class D>\n"
    + "class " + name + " : public Model" + " {\n"
    + " private:\n"
  }

  const DerivedHelpers: string :=
    "\n"
    + "  D const &derived() const {\n"
    + "    return static_cast<D const &>(*this);\n"
    + "  }\n"
    + "\n"
    + "  D &derived() {\n"
    + "    return static_cast<D &>(*this);\n"
    + "  }\n"
    + "\n"
    + " protected:\n"

  function PublicHead(name: string): string {
    " public:\n"
    + "  " + name + "() = delete;\n"
    + "\n"
    + "  virtual ~" + name + "() = default;\n"
    + "\n"
    + "  " + name + "(Configuration const &config"
  }

  const InitializerHead: string := ")\n" + "  : Model()"

  const AddFieldsHead: string :=
    "\n"
    + "  { }\n"
    + "\n"
    + "  virtual void add_fields(State &state) override {\n"
    + "    this->Model::add_fields(state);\n"
    + "\n"

  const GetFieldsHead: string :=
    "  }\n"
    + "\n"
    + "  virtual void get_fields(State &state) override {\n"
    + "    this->Model::get_fields(state);\n"
    + "\n"

  const StepHead: string :=
    "  }\n"
    + "\n"
    + "  virtual void step() override {\n"
    + "    this->Model::step();\n"
    + "\n"

  const Closing: string :=
    "  }\n"
    + "};\n"
    + "} // namespace psim\n"
    + "\n"
    + "#endif\n"

  function ArgDeclLine(arg: string): string { "  " + ArgDeclaration(arg) + "\n" }
  function ParamDeclLine(p: Variable): string { "  " + ParameterDeclaration(p) + "\n" }
  function AddsDeclLine(a: AddsField): string { "  " + AddsDeclaration(a) + "\n" }
  function GetsDeclLine(g: GetsField): string { "  " + GetsDeclaration(g) + "\n" }
  function ArgParameter(arg: string): string { ", std::string const &" + arg }
  function InitializerLine(ctor: string): string { ",\n    " + ctor }
  function AddsLine(a: AddsField): string { "    " + AddsExpression(a) + "\n" }
  function GetsLine(g: GetsField): string { "    " + GetsExpression(g) + "\n" }
  function ResetStatement(a: AddsField): string { "    " + MemberName(a.v.name) + ".reset();\n" }
  function ResetLine(a: AddsField): string { if a.lazy then ResetStatement(a) else "" }

  /** A declaration group, followed by a blank line only when non-empty. */
  function Group(n: nat, lines: string): string {
    if n > 0 then lines + "\n" else ""
  }

  /** The member initializers in the order of `itertools.chain(args,
    * params, adds, gets)`. */
  function Initializers(d: ModelDef): seq<string> {
    seq(|d.args|, i requires 0 <= i < |d.args| => ArgConstructor(d.args[i]))
    + seq(|d.params|, i requires 0 <= i < |d.params| => ParameterConstructor(d.params[i]))
    + seq(|d.adds|, i requires 0 <= i < |d.adds| => AddsConstructor(d.adds[i]))
    + seq(|d.gets|, i requires 0 <= i < |d.gets| => GetsConstructor(d.gets[i]))
  }

  /** The header up to the end of the member declarations. */
  function DeclarationsText(d: ModelDef): string {
    Preamble(d.name)
    + Concat(d.args, ArgDeclLine)
    + DerivedHelpers
    + Group(|d.params|, Concat(d.params, ParamDeclLine))
    + Group(|d.adds|, Concat(d.adds, AddsDeclLine))
    + Group(|d.gets|, Concat(d.gets, GetsDeclLine))
  }

  /** The constructor signature and its member initializers. */
  function ConstructorText(d: ModelDef): string {
    PublicHead(d.name)
    + Concat(d.args, ArgParameter)
    + InitializerHead
    + Concat(Initializers(d), InitializerLine)
  }

  /** The bodies of `add_fields` and `get_fields`. */
  function FieldsText(d: ModelDef): string {
    AddFieldsHead
    + Concat(d.adds, AddsLine)
    + GetFieldsHead
    + Concat(d.gets, GetsLine)
  }

  /** `step` and the closing lines. */
  function StepText(d: ModelDef): string {
    StepHead
    + Concat(d.adds, ResetLine)
    + Closing
  }

  /** The whole header `Model.code` produces for a validated model. */
  function CodeText(d: ModelDef): string {
    DeclarationsText(d) + ConstructorText(d) + FieldsText(d) + StepText(d)
  }

  /** The lazy adds fields, in order. */
  function LazyAdds(adds: seq<AddsField>): (r: seq<AddsField>)
    ensures forall a :: a in r <==> a in adds && a.lazy
  {
    if adds == [] then []
    else (if adds[0].lazy then [adds[0]] else []) + LazyAdds(adds[1..])
  }

  /** `step` resets exactly the lazy adds fields, in input order. */
  lemma {:induction false} StepResetsLazyFields(adds: seq<AddsField>)
    ensures Concat(adds, ResetLine) == Concat(LazyAdds(adds), ResetStatement)
  {
    if adds != [] {
      StepResetsLazyFields(adds[1..]);
      var tail := LazyAdds(adds[1..]);
      assert Concat(adds, ResetLine) == ResetLine(adds[0]) + Concat(adds[1..], ResetLine);
      if adds[0].lazy {
        assert LazyAdds(adds) == [adds[0]] + tail;
        assert ([adds[0]] + tail)[1..] == tail;
        assert Concat([adds[0]] + tail, ResetStatement) == ResetStatement(adds[0]) + Concat(tail, ResetStatement);
      } else {
        assert LazyAdds(adds) == tail;
      }
    }
  }

  /** Appends `f(x)` for each `x` of `xs` in turn. */
  method AppendEach<T>(prefix: string, xs: seq<T>, f: T -> string) returns (text: string)
    ensures text == prefix + Concat(xs, f)
  {
    text := prefix;
    for i := 0 to |xs|
      invariant text == prefix + Concat(xs[..i], f)
    {
      ConcatSnoc(xs[..i], xs[i], f);
      assert xs[..i + 1] == xs[..i] + [xs[i]];
      text := text + f(xs[i]);
    }
    assert xs[..|xs|] == xs;
  }

  /** Appends a declaration group and, when it is not empty, a blank line. */
  method AppendGroup<T>(prefix: string, xs: seq<T>, f: T -> string) returns (text: string)
    ensures text == prefix + Group(|xs|, Concat(xs, f))
  {
    text := prefix;
    if |xs| > 0 {
      text := AppendEach(text, xs, f);
      text := text + "\n";
    }
  }

  /** Appending pieces one at a time builds the same text as appending
    * their concatenation. */
  lemma Regroup(p: string, a: string, b: string, c: string, e: string)
    ensures p + a + b + c + e == p + (a + b + c + e)
  {
  }

  lemma RegroupThree(p: string, a: string, b: string, c: string)
    ensures p + a + b + c == p + (a + b + c)
  {
  }

  method EmitDeclarations(d: ModelDef) returns (text: string)
    ensures text == DeclarationsText(d)
  {
    text := Preamble(d.name);
    text := AppendEach(text, d.args, ArgDeclLine);
    text := text + DerivedHelpers;
    text := AppendGroup(text, d.params, ParamDeclLine);
    text := AppendGroup(text, d.adds, AddsDeclLine);
    text := AppendGroup(text, d.gets, GetsDeclLine);
  }

  method EmitConstructor(prefix: string, d: ModelDef) returns (text: string)
    ensures text == prefix + ConstructorText(d)
  {
    text := prefix + PublicHead(d.name);
    text := AppendEach(text, d.args, ArgParameter);
    text := text + InitializerHead;
    text := AppendEach(text, Initializers(d), InitializerLine);
    assert text == prefix + ConstructorText(d) by {
      Regroup(prefix, PublicHead(d.name), Concat(d.args, ArgParameter), InitializerHead, Concat(Initializers(d), InitializerLine));
    }
  }

  method EmitFields(prefix: string, d: ModelDef) returns (text: string)
    ensures text == prefix + FieldsText(d)
  {
    text := prefix + AddFieldsHead;
    text := AppendEach(text, d.adds, AddsLine);
    text := text + GetFieldsHead;
    text := AppendEach(text, d.gets, GetsLine);
    assert text == prefix + FieldsText(d) by {
      Regroup(prefix, AddFieldsHead, Concat(d.adds, AddsLine), GetFieldsHead, Concat(d.gets, GetsLine));
    }
  }

  method EmitStep(prefix: string, d: ModelDef) returns (text: string)
    ensures text == prefix + StepText(d)
  {
    text := prefix + StepHead;
    text := AppendEach(text, d.adds, ResetLine);
    text := text + Closing;
    assert text == prefix + StepText(d) by {
      RegroupThree(prefix, StepHead, Concat(d.adds, ResetLine), Closing);
    }
  }

  /** The four groups of the header, appended in turn. */
  method EmitCode(d: ModelDef) returns (text: string)
    ensures text == CodeText(d)
  {
    text := EmitDeclarations(d);
    text := EmitConstructor(text, d);
    text := EmitFields(text, d);
    text := EmitStep(text, d);
  }

  /** A model object: its validated definition and the cached header text
    * (`self.__code`, empty until first computed). */
  class Model {
    const def: ModelDef
    var code: string

    ghost predicate Valid()
      reads this
    {
      code == "" || code == CodeText(def)
    }

    constructor(d: ModelDef)
      ensures def == d && code == "" && Valid()
    {
      def := d;
      code := "";
    }

    /** Model.code: computed on first use by appending each group in turn,
      * then returned from the cache. */
    method Code() returns (c: string)
      requires Valid()
      modifies this
      ensures Valid()
      ensures c == CodeText(def) && code == c
      ensures old(code) != "" ==> c == old(code)
    {
      if code == "" {
        code := EmitCode(def);
      }
      c := code;
    }
  }

  /** The header is never empty, so the cache holds it after the first
    * call. */
  lemma CodeNonEmpty(d: ModelDef)
    ensures CodeText(d) != ""
  {
    PreambleNonEmpty(d.name);
    assert |DeclarationsText(d)| >= |Preamble(d.name)|;
  }

  lemma PreambleNonEmpty(name: string)
    ensures |Preamble(name)| > 60
  {
  }

  /* ---------------------------------------------------------------------- */
  /* Worked schemas                                                         */
  /* ---------------------------------------------------------------------- */

  /** A name without an opening brace is read as literal characters only. */
  lemma {:induction false} CharsOnly(s: string)
    requires forall i :: 0 <= i < |s| ==> s[i] != '{'
    ensures |Tokenize(s)| == |s| && forall i :: 0 <= i < |s| ==> Tokenize(s)[i] == Char(s[i])
    decreases |s|
  {
    if s != [] {
      assert Placeholder(s).None?;
      CharsOnly(s[1..]);
    }
  }

  /** A one-word field name is a valid name, its own member name, and is
    * spelled as a plain string literal. */
  lemma PlainName(name: string)
    requires |name| >= 1 && forall i :: 0 <= i < |name| ==> IsLower(name[i])
    ensures MatchesVariable(name)
    ensures MemberName(name) == name
    ensures StringNameOf(name) == "\"" + name + "\""
  {
    CharsOnly(name);
    assert VariableBody(name);
    NoSuchChar(name, '{');
    NoSuchChar(name, '}');
    assert MapChar(name, '.', '_') == name;
    PlainStringName(name);
  }

  /** The run of lower-case letters and digits that starts `x + rest` is `x`
    * when `rest` does not continue it. */
  lemma {:induction false} RunOf(x: string, rest: string)
    requires forall i :: 0 <= i < |x| ==> IsLower(x[i]) || IsDigit(x[i])
    requires rest == [] || !(IsLower(rest[0]) || IsDigit(rest[0]))
    ensures LowerDigitRun(x + rest) == |x|
    decreases |x|
  {
    if x == [] {
      assert x + rest == rest;
    } else {
      assert (x + rest)[1..] == x[1..] + rest;
      RunOf(x[1..], rest);
    }
  }

  /** A modifier word followed by the end or a blank is one token. */
  lemma TokenThenRest(w: string, rest: string)
    requires IsModifierToken(w)
    requires rest == [] || rest[0] == ' '
    ensures ModifierTokens(w + rest) == [w] + ModifierTokens(rest)
  {
    assert (w + rest)[1..] == w[1..] + rest;
    RunOf(w[1..], rest);
    assert (w + rest)[..|w|] == w;
    assert (w + rest)[|w|..] == rest;
  }

  lemma BlankSkipped(rest: string)
    ensures ModifierTokens(" " + rest) == ModifierTokens(rest)
  {
    assert (" " + rest)[1..] == rest;
  }

  /** The modifier set is the set of the tokens. */
  lemma SetOfTokens(t: string, toks: seq<string>)
    requires ModifierTokens(t) == toks
    ensures Modifiers(t) == set m | m in toks
  {
  }

  /** A lone modifier word is one token. */
  lemma WordToken(w: string)
    requires IsModifierToken(w)
    ensures ModifierTokens(w) == [w]
  {
    TokenThenRest(w, "");
    assert w + "" == w;
  }

  /** A modifier word, a blank and more words: the word, then the tokens of
    * the rest. */
  lemma WordsTokens(t: string, w: string, rest: string)
    requires IsModifierToken(w) && t == w + " " + rest
    ensures ModifierTokens(t) == [w] + ModifierTokens(rest)
  {
    TokenThenRest(w, " " + rest);
    BlankSkipped(rest);
    assert w + " " + rest == w + (" " + rest);
  }

  /** A single modifier word, such as `Real` or `Lazy`, names just itself. */
  lemma WordModifiers(w: string)
    requires IsModifierToken(w)
    ensures Modifiers(w) == {w}
  {
    WordToken(w);
    SetOfTokens(w, [w]);
  }

  /** A type that starts with "Real" and holds no 'I' and no 'V' names Real
    * as its only underlying type. */
  lemma OnlyReal(t: string)
    requires "Real" <= t && forall i :: 0 <= i < |t| ==> t[i] != 'I' && t[i] != 'V'
    ensures UnderlyingMatches(t) == ["Real"]
  {
    var ts := UnderlyingTypes;
    assert Contains(t, "Real");
    NotContained(t, "Integer");
    forall u | u in ts[2..]
      ensures !Contains(t, u)
    {
      NotContained(t, u);
    }
    NoMatches(t, ts[2..]);
    assert MatchesIn(t, ts[1..]) == ["Real"] by {
      assert ts[1..][1..] == ts[2..];
    }
  }
}
