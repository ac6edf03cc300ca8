/**
 * The typed entities of the model autocoder (tools/autocoder.py): model
 * arguments, parameters and the state fields a model adds to or gets from the
 * simulation. Each is built from one decoded YAML record, validated in the
 * order the Python constructors check it, and then renders the C++
 * declaration, initializer and registration/lookup statements of its member.
 */
module AutocoderEntities {
  import opened Wrappers
  import opened AutocoderNames

  /** A decoded YAML record describing a parameter or a state field. Values
    * are modelled as strings. */
  type Record = map<string, string>

  /** Why a constructor raised. */
  datatype Error =
    | InvalidArgument(arg: string)              // RuntimeError, line 25
    | InvalidComment(comment: string)           // RuntimeError, line 59
    | ExtraneousKeys(keys: set<string>)         // RuntimeError, line 62
    | InvalidName(name: Option<string>)         // RuntimeError, line 78
    | InvalidType(typ: string)                  // RuntimeError, line 82
    | NoType                                    // TypeError: `_re_type.match(None)`, line 81
    | UnderlyingTypeCount(typ: string)          // RuntimeError, line 97
    | MissingModifier(token: string)            // KeyError from `set.remove`, lines 182 and 251
    | InvalidAddsModifiers(rest: set<string>)   // RuntimeError, line 191
    | LazyConflict(typ: string)                 // RuntimeError, line 194
    | InvalidGetsModifiers(rest: set<string>)   // RuntimeError, line 256
    | InvalidModelName(modelName: Option<string>)    // RuntimeError, line 294
    | InvalidModelType(modelType: Option<string>)     // RuntimeError, line 298

  function Lookup(rec: Record, key: string): Option<string> {
    if key in rec then Some(rec[key]) else None
  }

  /* ---------------------------------------------------------------------- */
  /* Argument                                                               */
  /* ---------------------------------------------------------------------- */

  /** Argument.__init__: the name must be non-empty and match `_re_arg`. */
  function NewArgument(name: string): (r: Result<string, Error>)
    ensures r.Ok? <==> MatchesArg(name)
    ensures r.Ok? ==> r.value == name && |name| >= 1 && IsLower(name[0])
    ensures r.Err? ==> r.error == InvalidArgument(name)
  {
    if name == "" || !MatchesArg(name) then Err(InvalidArgument(name)) else Ok(name)
  }

  function ArgMember(arg: string): string { "_" + arg }
  function ArgConstructor(arg: string): string { ArgMember(arg) + "(" + arg + ")" }
  function ArgDeclaration(arg: string): string { "std::string const " + ArgMember(arg) + ";" }

  /* ---------------------------------------------------------------------- */
  /* Commented                                                              */
  /* ---------------------------------------------------------------------- */

  /** Commented.__init__: a truthy comment must match `_re_comment`, and no
    * key may be left over once the subclass took its own. */
  function CheckCommented(comment: Option<string>, extra: set<string>): (r: Option<Error>)
    ensures r.None? <==> CommentOk(comment) && extra == {}
    ensures r.Some? && !CommentOk(comment) ==> r.value == InvalidComment(comment.value)
  {
    if comment.Some? && comment.value != "" && !MatchesComment(comment.value) then Some(InvalidComment(comment.value))
    else if |extra| != 0 then Some(ExtraneousKeys(extra))
    else None
  }

  /** Absent and empty comments are not checked. */
  predicate CommentOk(comment: Option<string>) {
    comment.None? || comment.value == "" || MatchesComment(comment.value)
  }

  /* ---------------------------------------------------------------------- */
  /* Variable                                                               */
  /* ---------------------------------------------------------------------- */

  /** The underlying types, in the order the constructor tries them. */
  const UnderlyingTypes: seq<string> := ["Integer", "Real", "Vector2", "Vector3", "Vector4"]

  /** `u in t` for strings: `u` occurs somewhere in `t`. */
  predicate Contains(t: string, u: string)
    decreases |t|
  {
    u <= t || (|t| > 0 && Contains(t[1..], u))
  }

  /** The underlying types occurring in `ts` as substrings of `t`, in order. */
  function MatchesIn(t: string, ts: seq<string>): (r: seq<string>)
    ensures |r| <= |ts|
    ensures forall u :: u in r <==> u in ts && Contains(t, u)
  {
    if ts == [] then []
    else (if Contains(t, ts[0]) then [ts[0]] else []) + MatchesIn(t, ts[1..])
  }

  function UnderlyingMatches(t: string): seq<string> { MatchesIn(t, UnderlyingTypes) }

  /** The loop of Variable.__init__ over the underlying types: how many occur
    * in the type, and the last one that does. */
  method CountUnderlying(t: string) returns (count: nat, found: Option<string>)
    ensures count == |UnderlyingMatches(t)|
    ensures count == 0 <==> found.None?
    ensures found.Some? ==> found.value == UnderlyingMatches(t)[count - 1]
  {
    count := 0;
    found := None;
    var candidates := UnderlyingTypes;
    for i := 0 to |candidates|
      invariant count == |MatchesIn(t, candidates[..i])|
      invariant count == 0 <==> found.None?
      invariant found.Some? ==> found.value == MatchesIn(t, candidates[..i])[count - 1]
    {
      MatchesInSnoc(t, candidates[..i], candidates[i]);
      assert candidates[..i + 1] == candidates[..i] + [candidates[i]];
      if Contains(t, candidates[i]) {
        count := count + 1;
        found := Some(candidates[i]);
      }
    }
    assert candidates[..|candidates|] == candidates;
  }

  lemma {:induction false} MatchesInSnoc(t: string, xs: seq<string>, x: string)
    ensures MatchesIn(t, xs + [x]) == MatchesIn(t, xs) + (if Contains(t, x) then [x] else [])
  {
    if xs == [] {
      assert xs + [x] == [x];
    } else {
      assert (xs + [x])[0] == xs[0];
      assert (xs + [x])[1..] == xs[1..] + [x];
      MatchesInSnoc(t, xs[1..], x);
    }
  }

  /** A parameter or state field after Variable.__init__ accepted it. */
  datatype Variable = Variable(name: string, typ: string, comment: Option<string>, underlying: string)

  /** What an accepted variable guarantees: a valid field name and exactly
    * one underlying type occurring in its type string. */
  predicate ValidVariable(v: Variable) {
    MatchesVariable(v.name)
    && v.underlying in UnderlyingTypes
    && Contains(v.typ, v.underlying)
    && forall u :: u in UnderlyingTypes && Contains(v.typ, u) ==> u == v.underlying
  }

  /** Exactly the records Variable.__init__ accepts: nothing is said of the
    * type's format, only of the underlying type it contains. */
  predicate VariableRecordOk(rec: Record) {
    CommentOk(Lookup(rec, "comment"))
    && rec.Keys <= {"name", "type", "comment"}
    && "name" in rec && MatchesVariable(rec["name"])
    && "type" in rec && |UnderlyingMatches(rec["type"])| == 1
  }

  /** Variable.__init__ (after Commented.__init__ on the remaining keys). */
  function NewVariable(rec: Record): (r: Result<Variable, Error>)
    ensures r.Ok? <==> VariableRecordOk(rec)
    ensures r.Ok? ==> ValidVariable(r.value) && r.value.name == rec["name"] && r.value.typ == rec["type"]
  {
    var extra := rec.Keys - {"name", "type", "comment"};
    var check := CheckCommented(Lookup(rec, "comment"), extra);
    if check.Some? then Err(check.value)
    else if "name" !in rec || rec["name"] == "" || !MatchesVariable(rec["name"]) then Err(InvalidName(Lookup(rec, "name")))
    else if "type" !in rec then Err(NoType)
    else if rec["type"] == "" && !MatchesType(rec["type"]) then
      ShortTypeHasNoUnderlying(rec["type"]);
      Err(InvalidType(rec["type"]))
    else
      var t := rec["type"];
      var ms := UnderlyingMatches(t);
      if |ms| != 1 then Err(UnderlyingTypeCount(t))
      else
        OneUnderlying(t);
        Ok(Variable(rec["name"], t, Lookup(rec, "comment"), ms[0]))
  }

  /** A type with exactly one underlying match names that type and no
    * other. */
  lemma OneUnderlying(t: string)
    requires |UnderlyingMatches(t)| == 1
    ensures UnderlyingMatches(t)[0] in UnderlyingTypes && Contains(t, UnderlyingMatches(t)[0])
    ensures forall u :: u in UnderlyingTypes && Contains(t, u) ==> u == UnderlyingMatches(t)[0]
  {
    var ms := UnderlyingMatches(t);
    assert ms[0] in ms;
    assert ms == [ms[0]];
  }

  /** The type-format test `not type and not _re_type.match(type)` can only
    * fire on the empty string: its grammar is never applied to a non-empty
    * type. */
  lemma TypeFormatOnlyRejectsEmpty(rec: Record)
    requires NewVariable(rec).Err? && NewVariable(rec).error.InvalidType?
    ensures rec["type"] == ""
  {
  }

  /** The type grammar, had it been applied, would reject every type
    * written with a full word such as "Real": each of its groups is an
    * upper-case letter followed by exactly one lower-case letter or digit. */
  lemma TypeGrammarRejectsWords()
    ensures !MatchesType("Real") && !MatchesType("Integer") && !MatchesType("Real Lazy")
  {
    assert !TypeTail("al");
    assert !TypeTail("teger");
    assert !TypeTail("al Lazy") by {
      assert !TypeTail("l Lazy");
    }
  }

  /** A lower-case type is refused only for lack of an underlying type. */
  lemma LowerCaseType()
    ensures NewVariable(map["name" := "x", "type" := "real"]) == Err(UnderlyingTypeCount("real"))
  {
    var rec := map["name" := "x", "type" := "real"];
    assert rec.Keys == {"name", "type"};
    assert rec.Keys - {"name", "type", "comment"} == {};
    assert "comment" !in rec;
    assert CheckCommented(Lookup(rec, "comment"), {}) == None;
    assert MatchesVariable("x") by {
      assert Tokenize("x") == [Char('x')];
      assert VariableBody("x");
    }
    forall u | u in UnderlyingTypes
      ensures !Contains("real", u)
    {
      NotContained("real", u);
    }
    NoMatches("real", UnderlyingTypes);
  }

  /** A string in which the first character of `u` never occurs does not
    * contain `u`. */
  lemma {:induction false} NotContained(t: string, u: string)
    requires |u| > 0 && forall i :: 0 <= i < |t| ==> t[i] != u[0]
    ensures !Contains(t, u)
    decreases |t|
  {
    if |t| > 0 {
      assert u[0] != t[0];
      NotContained(t[1..], u);
    }
  }

  /** A string shorter than every underlying type holds none of them. */
  lemma ShortTypeHasNoUnderlying(t: string)
    requires |t| < 4
    ensures UnderlyingMatches(t) == []
  {
    forall u | u in UnderlyingTypes
      ensures !Contains(t, u)
    {
      TooShort(t, u);
    }
    NoMatches(t, UnderlyingTypes);
  }

  lemma {:induction false} NoMatches(t: string, ts: seq<string>)
    requires forall u :: u in ts ==> !Contains(t, u)
    ensures MatchesIn(t, ts) == []
  {
    if ts != [] {
      assert ts[0] in ts;
      NoMatches(t, ts[1..]);
    }
  }

  lemma {:induction false} TooShort(t: string, u: string)
    requires |t| < |u|
    ensures !Contains(t, u)
    decreases |t|
  {
    if |t| > 0 { TooShort(t[1..], u); }
  }

  function ParameterConstructor(v: Variable): string {
    MemberName(v.name) + "(config[" + StringNameOf(v.name) + "].template get<" + v.underlying + ">())"
  }

  function ParameterDeclaration(v: Variable): string {
    "Parameter<" + v.underlying + "> const " + MemberName(v.name) + ";"
  }

  /* ---------------------------------------------------------------------- */
  /* StateField modifiers                                                   */
  /* ---------------------------------------------------------------------- */

  /** Length of the longest prefix of `s` in `[a-z0-9]`. */
  function LowerDigitRun(s: string): (k: nat)
    ensures k <= |s|
    ensures forall i :: 0 <= i < k ==> IsLower(s[i]) || IsDigit(s[i])
    ensures k < |s| ==> !(IsLower(s[k]) || IsDigit(s[k]))
  {
    if s != [] && (IsLower(s[0]) || IsDigit(s[0])) then 1 + LowerDigitRun(s[1..]) else 0
  }

  /** A token of `_re_modifier`, `[A-Z][a-z0-9]*`. */
  predicate IsModifierToken(m: string) {
    |m| >= 1 && IsUpper(m[0]) && forall i :: 1 <= i < |m| ==> IsLower(m[i]) || IsDigit(m[i])
  }

  /** `_re_modifier.findall(t)`: each upper-case letter starts a token that
    * runs over the following lower-case letters and digits. */
  function ModifierTokens(t: string): (r: seq<string>)
    ensures forall i :: 0 <= i < |r| ==> IsModifierToken(r[i])
    decreases |t|
  {
    if t == [] then []
    else if IsUpper(t[0]) then
      var k := 1 + LowerDigitRun(t[1..]);
      [t[..k]] + ModifierTokens(t[k..])
    else ModifierTokens(t[1..])
  }

  function Modifiers(t: string): set<string> {
    set m | m in ModifierTokens(t)
  }

  /* ---------------------------------------------------------------------- */
  /* AddsStateField                                                         */
  /* ---------------------------------------------------------------------- */

  datatype AddsField = AddsField(v: Variable, initialized: bool, lazy: bool, writable: bool)

  const AddsKeywords: set<string> := {"Initialized", "Lazy", "Writable"}
  const GetsKeywords: set<string> := {"Writable"}

  /** What an accepted adds field guarantees: its modifiers are its
    * underlying type plus some of Initialized/Lazy/Writable, the flags are
    * read off the modifiers, and a lazy field is neither initialized nor
    * writable. */
  predicate ValidAdds(a: AddsField) {
    ValidVariable(a.v)
    && a.v.underlying in Modifiers(a.v.typ)
    && Modifiers(a.v.typ) <= {a.v.underlying} + AddsKeywords
    && a.initialized == ("Initialized" in Modifiers(a.v.typ))
    && a.lazy == ("Lazy" in Modifiers(a.v.typ))
    && a.writable == ("Writable" in Modifiers(a.v.typ))
    && !(a.lazy && (a.initialized || a.writable))
  }

  /** AddsStateField.__init__: removing the underlying type from the
    * modifier set raises KeyError when it is not a token of its own, the
    * keywords present are removed, anything left is an error, and Lazy
    * excludes Initialized and Writable. */
  function NewAdds(rec: Record): (r: Result<AddsField, Error>)
    ensures r.Ok? <==> VariableRecordOk(rec) && AddsModifiersOk(rec["type"])
    ensures r.Ok? ==> ValidAdds(r.value) && r.value.v.name == rec["name"]
    ensures VariableRecordOk(rec) && UnderlyingMatches(rec["type"])[0] !in Modifiers(rec["type"]) ==>
              r == Err(MissingModifier(UnderlyingMatches(rec["type"])[0]))
  {
    var vr := NewVariable(rec);
    if vr.Err? then Err(vr.error)
    else
      var v := vr.value;
      var mods := Modifiers(v.typ);
      var initialized := "Initialized" in mods;
      var lazy := "Lazy" in mods;
      var writable := "Writable" in mods;
      if v.underlying !in mods then Err(MissingModifier(v.underlying))
      else
        var rest := mods - ({v.underlying} + AddsKeywords);
        if |rest| != 0 then Err(InvalidAddsModifiers(rest))
        else if lazy && (initialized || writable) then Err(LazyConflict(v.typ))
        else
          RemainderEmpty(mods, {v.underlying} + AddsKeywords);
          Ok(AddsField(v, initialized, lazy, writable))
  }

  /** The modifier conditions AddsStateField.__init__ adds to a valid variable. */
  predicate AddsModifiersOk(t: string)
    requires |UnderlyingMatches(t)| == 1
  {
    var u := UnderlyingMatches(t)[0];
    var mods := Modifiers(t);
    u in mods && mods <= {u} + AddsKeywords
    && !("Lazy" in mods && ("Initialized" in mods || "Writable" in mods))
  }

  /** Nothing is left after removing `keep` exactly when all is kept. */
  lemma RemainderEmpty(mods: set<string>, keep: set<string>)
    requires |mods - keep| == 0
    ensures mods <= keep
  {
    assert mods - keep == {};
    forall m | m in mods ensures m in keep {
      assert m !in mods - keep;
    }
  }

  function AddsExpression(a: AddsField): string {
    if a.writable then "state.add_writable(&" + MemberName(a.v.name) + ");"
    else "state.add(&" + MemberName(a.v.name) + ");"
  }

  function AddsConstructor(a: AddsField): string {
    var m := MemberName(a.v.name);
    var s := StringNameOf(a.v.name);
    if a.lazy then m + "(" + s + ", std::bind(&D::" + m + ", &derived()))"
    else if a.initialized then m + "(" + s + ", config[" + s + "].template get<" + a.v.underlying + ">())"
    else m + "(" + s + ")"
  }

  function AddsDeclaration(a: AddsField): string {
    if a.lazy then "StateFieldLazy<" + a.v.underlying + "> " + MemberName(a.v.name) + ";"
    else "StateFieldValued<" + a.v.underlying + "> " + MemberName(a.v.name) + ";"
  }

  /* ---------------------------------------------------------------------- */
  /* GetsStateField                                                         */
  /* ---------------------------------------------------------------------- */

  datatype GetsField = GetsField(v: Variable, writable: bool)

  /** What an accepted gets field guarantees: its modifiers are its
    * underlying type and at most Writable. */
  predicate ValidGets(g: GetsField) {
    ValidVariable(g.v)
    && g.v.underlying in Modifiers(g.v.typ)
    && Modifiers(g.v.typ) <= {g.v.underlying} + GetsKeywords
    && g.writable == ("Writable" in Modifiers(g.v.typ))
  }


  /** GetsStateField.__init__: only Writable may accompany the underlying
    * type. */
  function NewGets(rec: Record): (r: Result<GetsField, Error>)
    ensures r.Ok? <==> VariableRecordOk(rec) && GetsModifiersOk(rec["type"])
    ensures r.Ok? ==> ValidGets(r.value) && r.value.v.name == rec["name"]
    ensures VariableRecordOk(rec) && UnderlyingMatches(rec["type"])[0] !in Modifiers(rec["type"]) ==>
              r == Err(MissingModifier(UnderlyingMatches(rec["type"])[0]))
  {
    var vr := NewVariable(rec);
    if vr.Err? then Err(vr.error)
    else
      var v := vr.value;
      var mods := Modifiers(v.typ);
      if v.underlying !in mods then Err(MissingModifier(v.underlying))
      else
        var rest := mods - ({v.underlying} + GetsKeywords);
        if |rest| != 0 then Err(InvalidGetsModifiers(rest))
        else
          RemainderEmpty(mods, {v.underlying} + GetsKeywords);
          Ok(GetsField(v, "Writable" in mods))
  }

  /** The modifier conditions GetsStateField.__init__ adds to a valid variable. */
  predicate GetsModifiersOk(t: string)
    requires |UnderlyingMatches(t)| == 1
  {
    var u := UnderlyingMatches(t)[0];
    u in Modifiers(t) && Modifiers(t) <= {u} + GetsKeywords
  }

  function GetsConstructor(g: GetsField): string {
    MemberName(g.v.name) + "(nullptr)"
  }

  function GetsDeclaration(g: GetsField): string {
    if g.writable then "StateFieldWritable<" + g.v.underlying + "> *" + MemberName(g.v.name) + ";"
    else "StateField<" + g.v.underlying + "> const *" + MemberName(g.v.name) + ";"
  }

  function GetsExpression(g: GetsField): string {
    var m := MemberName(g.v.name);
    if g.writable then m + " = get_writable_field<" + g.v.underlying + ">(state, " + StringNameOf(g.v.name) + ");"
    else m + " = get_field<" + g.v.underlying + ">(state, " + StringNameOf(g.v.name) + ");"
  }

  lemma RealsUnderlying()
    ensures UnderlyingMatches("Reals") == ["Real"]
  {
    assert Contains("Reals", "Real");
    NotContained("Reals", "Integer");
    NoMatches("Reals", ["Vector2", "Vector3", "Vector4"]) by {
      forall u | u in ["Vector2", "Vector3", "Vector4"]
        ensures !Contains("Reals", u)
      {
        NotContained("Reals", u);
      }
    }
    assert UnderlyingTypes[2..] == ["Vector2", "Vector3", "Vector4"];
  }

  lemma RealsModifiers()
    ensures Modifiers("Reals") == {"Reals"}
  {
    assert LowerDigitRun("eals") == 4;
    assert "Reals"[..5] == "Reals";
    assert "Reals"[5..] == [];
    assert ModifierTokens("Reals") == ["Reals"];
  }

  /** A type whose underlying name runs on into more lower-case letters
    * ("Reals") yields the modifier "Reals", so removing "Real" from the
    * modifier set raises KeyError rather than a schema error. */
  lemma SuffixedTypeRaisesKeyError(rec: Record)
    requires "type" in rec && rec["type"] == "Reals"
    requires CommentOk(Lookup(rec, "comment")) && rec.Keys <= {"name", "type", "comment"}
    requires "name" in rec && MatchesVariable(rec["name"])
    ensures NewAdds(rec) == Err(MissingModifier("Real"))
    ensures NewGets(rec) == Err(MissingModifier("Real"))
  {
    SuffixedRecord(rec);
  }

  lemma SuffixedRecord(rec: Record)
    requires "type" in rec && rec["type"] == "Reals"
    requires CommentOk(Lookup(rec, "comment")) && rec.Keys <= {"name", "type", "comment"}
    requires "name" in rec && MatchesVariable(rec["name"])
    ensures VariableRecordOk(rec) && UnderlyingMatches(rec["type"]) == ["Real"]
    ensures UnderlyingMatches(rec["type"])[0] !in Modifiers(rec["type"])
  {
    RealsMissing();
  }

  lemma RealsMissing()
    ensures UnderlyingMatches("Reals") == ["Real"] && "Real" !in Modifiers("Reals")
  {
    RealsUnderlying();
    RealsModifiers();
    assert |"Real"| != |"Reals"|;
  }
}
