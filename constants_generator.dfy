/**
 * The constants generator (tools/constants_generator.py): each CSV row
 * `<editable>,<type>,<name>,<value 0>,...` becomes a tracked constant in the
 * generated header and, for editable constants, in the generated source file.
 * The two output streams are modelled as the text appended to them.
 */
module ConstantsGenerator {

  const HppHeader: string :=
    "/** @file gnc/constants.hpp\n"
    + " *  Autocoded constants header file. See tools/constants_generator.py for more\n"
    + " *  information. */\n"
    + "\n"
    + "#ifndef GNC_CONSTANTS_HPP_\n"
    + "#define GNC_CONSTANTS_HPP_\n"
    + "\n"
    + "#include \"config.hpp\"\n"
    + "\n"
    + "#include <lin/core.hpp>\n"
    + "\n"
    + "#include <cstdint>\n"
    + "\n"
    + "#include <limits>\n"
    + "\n"
    + "namespace gnc {\n"
    + "namespace constant {\n"
    + "\n"

  const HppFooter: string :=
    "}  // namespace constant\n"
    + "}  // namespace gnc\n"
    + "\n"
    + "#endif\n"
    + "\n"

  const CppHeader: string :=
    "/** @file gnc_constants.cpp\n"
    + " *  Autocoded constants source file. See tools/constants_generator.py for more\n"
    + " *  information. */\n"
    + "\n"
    + "#include <gnc/config.hpp>\n"
    + "#include <gnc/constants.hpp>\n"
    + "\n"
    + "namespace gnc {\n"
    + "namespace constant {\n"
    + "\n"

  const CppFooter: string :=
    "}  // namespace constant\n"
    + "}  // namespace gnc\n"
    + "\n"

  /** Fixed pieces of the emitted statements. */
  const TrackedOpen: string := "GNC_TRACKED_CONSTANT("
  const ConstexprStatic: string := "constexpr static "
  const Extern: string := "extern "

  /** Python's `str.lower` on ASCII letters. */
  function Lower(s: string): (r: string)
    ensures |r| == |s|
    ensures forall i :: 0 <= i < |s| ==> r[i] == if 'A' <= s[i] <= 'Z' then (s[i] as int + 32) as char else s[i]
  {
    if s == [] then [] else [if 'A' <= s[0] <= 'Z' then (s[0] as int + 32) as char else s[0]] + Lower(s[1..])
  }

  /** A row is emitted only when it has the four mandatory fields. */
  predicate Complete(row: seq<string>) { |row| >= 4 }
  predicate Editable(row: seq<string>) { Complete(row) && Lower(row[0]) == "true" }
  predicate Fixed(row: seq<string>) { Complete(row) && Lower(row[0]) == "false" }

  /** The `, {}` suffix written for each extra value. */
  function ExtraValues(vs: seq<string>): string {
    if vs == [] then "" else ", " + vs[0] + ExtraValues(vs[1..])
  }

  /** The `GNC_TRACKED_CONSTANT(...)` statement of a row, with the given
    * type prefix. */
  function Tracked(typePrefix: string, row: seq<string>): string
    requires Complete(row)
  {
    TrackedOpen + typePrefix + row[1] + ", " + row[2] + ", " + row[3] + ExtraValues(row[4..]) + ");\n\n"
  }

  /** What a row contributes to the header. */
  function RowHpp(row: seq<string>): string {
    if !Complete(row) then ""
    else if Editable(row) then Extern + row[1] + " " + row[2] + ";\n\n"
    else if Fixed(row) then Tracked(ConstexprStatic, row)
    else ""
  }

  /** What a row contributes to the source file. */
  function RowCpp(row: seq<string>): string {
    if Editable(row) then Tracked("", row) else ""
  }

  /** The text written for each row in turn. */
  function Emitted(rows: seq<seq<string>>, f: seq<string> -> string): string {
    if rows == [] then "" else f(rows[0]) + Emitted(rows[1..], f)
  }

  function HppBody(rows: seq<seq<string>>): string { Emitted(rows, RowHpp) }
  function CppBody(rows: seq<seq<string>>): string { Emitted(rows, RowCpp) }

  lemma {:induction false} EmittedSnoc(rows: seq<seq<string>>, row: seq<string>, f: seq<string> -> string)
    ensures Emitted(rows + [row], f) == Emitted(rows, f) + f(row)
  {
    if rows == [] {
      assert rows + [row] == [row];
    } else {
      assert (rows + [row])[0] == rows[0];
      assert (rows + [row])[1..] == rows[1..] + [row];
      EmittedSnoc(rows[1..], row, f);
    }
  }

  lemma {:induction false} ExtraValuesSnoc(vs: seq<string>, v: string)
    ensures ExtraValues(vs + [v]) == ExtraValues(vs) + ", " + v
  {
    if vs == [] {
      assert vs + [v] == [v];
    } else {
      assert (vs + [v])[0] == vs[0];
      assert (vs + [v])[1..] == vs[1..] + [v];
      ExtraValuesSnoc(vs[1..], v);
    }
  }

  lemma AppendNothing(s: string)
    ensures s + "" == s
  {
  }

  lemma AppendAssociates(a: string, b: string, c: string)
    ensures (a + b) + c == a + (b + c)
  {
  }

  /** generate: the headers first, then each row's statements in input
    * order (values appended one by one), then the footers. */
  method Generate(rows: seq<seq<string>>) returns (hpp: string, cpp: string)
    ensures hpp == HppHeader + HppBody(rows) + HppFooter
    ensures cpp == CppHeader + CppBody(rows) + CppFooter
  {
    hpp := HppHeader;
    cpp := CppHeader;
    assert hpp == HppHeader + HppBody(rows[..0]) by { AppendNothing(HppHeader); }
    assert cpp == CppHeader + CppBody(rows[..0]) by { AppendNothing(CppHeader); }
    for k := 0 to |rows|
      invariant hpp == HppHeader + HppBody(rows[..k])
      invariant cpp == CppHeader + CppBody(rows[..k])
    {
      ghost var before := rows[..k];
      assert rows[..k + 1] == before + [rows[k]];
      hpp, cpp := EmitRow(hpp, cpp, rows[k]);
      assert hpp == HppHeader + HppBody(rows[..k + 1]) by {
        EmittedSnoc(before, rows[k], RowHpp);
        AppendAssociates(HppHeader, HppBody(before), RowHpp(rows[k]));
      }
      assert cpp == CppHeader + CppBody(rows[..k + 1]) by {
        EmittedSnoc(before, rows[k], RowCpp);
        AppendAssociates(CppHeader, CppBody(before), RowCpp(rows[k]));
      }
    }
    assert rows[..|rows|] == rows;
    hpp := hpp + HppFooter;
    cpp := cpp + CppFooter;
  }

  /** One pass of the loop over the rows. */
  method EmitRow(hpp0: string, cpp0: string, constant: seq<string>) returns (hpp: string, cpp: string)
    ensures hpp == hpp0 + RowHpp(constant)
    ensures cpp == cpp0 + RowCpp(constant)
  {
    hpp, cpp := hpp0, cpp0;
    if |constant| < 4 {
      return;
    }
    var editable := Lower(constant[0]);
    if editable == "true" {
      hpp := hpp + Extern + constant[1] + " " + constant[2] + ";\n\n";
      cpp := AppendTracked(cpp, "", constant);
    } else if editable == "false" {
      hpp := AppendTracked(hpp, ConstexprStatic, constant);
    }
  }

  /** Writes one `GNC_TRACKED_CONSTANT` statement, value by value. */
  method AppendTracked(prefix: string, typePrefix: string, constant: seq<string>) returns (out: string)
    requires Complete(constant)
    ensures out == prefix + Tracked(typePrefix, constant)
  {
    var head := TrackedOpen + typePrefix + constant[1] + ", " + constant[2] + ", " + constant[3];
    out := AppendValues(prefix + head, constant[4..]);
    out := out + ");\n\n";
    Regroup(prefix, head, ExtraValues(constant[4..]), ");\n\n");
  }

  /** The loop over the values after the fourth field. */
  method AppendValues(prefix: string, extra: seq<string>) returns (out: string)
    ensures out == prefix + ExtraValues(extra)
  {
    out := prefix;
    for i := 0 to |extra|
      invariant out == prefix + ExtraValues(extra[..i])
    {
      ExtraValuesSnoc(extra[..i], extra[i]);
      assert extra[..i + 1] == extra[..i] + [extra[i]];
      out := out + ", " + extra[i];
    }
    assert extra[..|extra|] == extra;
  }

  lemma Regroup(a: string, b: string, c: string, d: string)
    ensures a + b + c + d == a + (b + c + d)
  {
  }

  /** The values joined by ", ", defined independently of the generator. */
  function Join(vs: seq<string>): string
    requires |vs| >= 1
  {
    if |vs| == 1 then vs[0] else Join(vs[..|vs| - 1]) + ", " + vs[|vs| - 1]
  }

  /** The value list of a statement is every value from the fourth field on,
    * joined in order by ", ". */
  lemma {:induction false} ValuesJoined(vs: seq<string>)
    requires |vs| >= 1
    ensures vs[0] + ExtraValues(vs[1..]) == Join(vs)
    decreases |vs|
  {
    if |vs| > 1 {
      var init := vs[..|vs| - 1];
      ValuesJoined(init);
      assert vs[1..] == init[1..] + [vs[|vs| - 1]];
      ExtraValuesSnoc(init[1..], vs[|vs| - 1]);
    }
  }

  /** Rows are emitted independently and in input order. */
  lemma {:induction false} EmittedConcatenates(rs: seq<seq<string>>, ss: seq<seq<string>>, f: seq<string> -> string)
    ensures Emitted(rs + ss, f) == Emitted(rs, f) + Emitted(ss, f)
  {
    if rs == [] {
      assert rs + ss == ss;
    } else {
      assert (rs + ss)[0] == rs[0];
      assert (rs + ss)[1..] == rs[1..] + ss;
      EmittedConcatenates(rs[1..], ss, f);
    }
  }

  lemma BodiesConcatenate(rs: seq<seq<string>>, ss: seq<seq<string>>)
    ensures HppBody(rs + ss) == HppBody(rs) + HppBody(ss)
    ensures CppBody(rs + ss) == CppBody(rs) + CppBody(ss)
  {
    EmittedConcatenates(rs, ss, RowHpp);
    EmittedConcatenates(rs, ss, RowCpp);
  }

  /** Only complete rows with editable "true" reach the source file, and a
    * row whose editable is neither "true" nor "false" (in any case) writes
    * nothing at all. */
  lemma RowClassification(row: seq<string>)
    ensures !Complete(row) ==> RowHpp(row) == "" && RowCpp(row) == ""
    ensures Complete(row) && Lower(row[0]) != "true" && Lower(row[0]) != "false" ==> RowHpp(row) == "" && RowCpp(row) == ""
    ensures RowCpp(row) != "" <==> Editable(row)
    ensures Editable(row) ==> RowCpp(row) == TrackedOpen + row[1] + ", " + row[2] + ", " + Join(row[3..]) + ");\n\n"
    ensures Fixed(row) ==> RowHpp(row) == TrackedOpen + ConstexprStatic + row[1] + ", " + row[2] + ", " + Join(row[3..]) + ");\n\n"
  {
    if Complete(row) {
      ValuesJoined(row[3..]);
      assert row[3..][1..] == row[4..];
      assert row[3..][0] == row[3];
    }
  }

  /** The editable column is compared case-insensitively: a row is
    * editable exactly when that column spells `true` in any mix of cases,
    * and fixed exactly when it spells `false` so. */
  lemma EditableIgnoresCase(row: seq<string>)
    requires Complete(row)
    ensures Editable(row) <==> SpelledAnyCase(row[0], "true")
    ensures Fixed(row) <==> SpelledAnyCase(row[0], "false")
  {
    LowerSpells(row[0], "true");
    LowerSpells(row[0], "false");
  }

  /** `s` is the lower-case word `w` with any of its letters upper-cased. */
  predicate SpelledAnyCase(s: string, w: string) {
    |s| == |w| && forall i :: 0 <= i < |w| ==> s[i] == w[i] || s[i] as int == w[i] as int - 32
  }

  lemma LowerSpells(s: string, w: string)
    requires forall i :: 0 <= i < |w| ==> 'a' <= w[i] <= 'z'
    ensures Lower(s) == w <==> SpelledAnyCase(s, w)
  {
    if SpelledAnyCase(s, w) {
      assert forall i :: 0 <= i < |w| ==> Lower(s)[i] == w[i];
    }
  }
}
