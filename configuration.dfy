/**
 * The configuration file parser (src/psim/core/configuration.cpp): each line
 * of a configuration file is a comment, blank, or `<name> <value>...`, and the
 * parameters of one or more files are collected into one name-keyed map.
 *
 * Opening and reading files is left to the caller (a file is given as its
 * lines, or as None when it cannot be opened), and the numeric conversions
 * `std::stol` and `std::stod` are parameters that may fail.
 */
module SimConfiguration {
  import opened Wrappers

  /** A parameter value: an Integer, a Real, or a Vector2/3/4 by the number
    * of its components. */
  datatype Value = Integer(i: int) | Real(x: real) | Vector(components: seq<real>)

  /** The errors `_parse`, `_add` and `operator[]` raise. */
  datatype Error =
    | CannotOpen(file: string)
    | InvalidName(file: string, lineNumber: nat, name: string)
    | OneToken(file: string, lineNumber: nat, text: string)
    | TooManyTokens(file: string, lineNumber: nat, text: string)
    | BadNumber(file: string, lineNumber: nat)
    | Duplicate(file: string, lineNumber: nat, name: string)
    | NotFound(name: string)

  type Stol = string -> Option<int>
  type Stod = string -> Option<real>

  // ----- Tokens: what `std::istream >> std::string` splits a line into -----

  predicate IsSpace(c: char) {
    c == ' ' || c == '\t' || c == '\n' || c == '\U{B}' || c == '\U{C}' || c == '\r'
  }

  predicate IsWord(t: string) {
    t != [] && forall i :: 0 <= i < |t| ==> !IsSpace(t[i])
  }

  /** Length of the run of non-space characters that starts `s`. */
  function WordLength(s: string): (n: nat)
    ensures n <= |s|
    ensures forall i :: 0 <= i < n ==> !IsSpace(s[i])
    ensures n < |s| ==> IsSpace(s[n])
  {
    if s == [] || IsSpace(s[0]) then 0 else 1 + WordLength(s[1..])
  }

  /** The whitespace-separated tokens of a line, in order. */
  function Tokens(s: string): (ts: seq<string>)
    ensures forall i :: 0 <= i < |ts| ==> IsWord(ts[i])
    decreases |s|
  {
    if s == [] then []
    else if IsSpace(s[0]) then Tokens(s[1..])
    else [s[..WordLength(s)]] + Tokens(s[WordLength(s)..])
  }

  function Unwords(ts: seq<string>): string {
    if ts == [] then "" else ts[0] + " " + Unwords(ts[1..])
  }

  lemma {:induction false} WordLengthOfWord(t: string, rest: string)
    requires IsWord(t)
    requires rest != [] && IsSpace(rest[0])
    ensures WordLength(t + rest) == |t|
    decreases |t|
  {
    if |t| > 1 {
      assert (t + rest)[1..] == t[1..] + rest;
      WordLengthOfWord(t[1..], rest);
    } else {
      assert (t + rest)[1..] == rest;
    }
  }

  /** Tokens written out separated by blanks are read back unchanged. */
  lemma {:induction false} TokensUnwords(ts: seq<string>)
    requires forall i :: 0 <= i < |ts| ==> IsWord(ts[i])
    ensures Tokens(Unwords(ts)) == ts
  {
    if ts != [] {
      var rest := " " + Unwords(ts[1..]);
      assert Unwords(ts) == ts[0] + rest;
      WordLengthOfWord(ts[0], rest);
      assert (ts[0] + rest)[..|ts[0]|] == ts[0];
      assert (ts[0] + rest)[|ts[0]|..] == rest;
      assert Tokens(rest) == Tokens(Unwords(ts[1..])) by {
        assert rest[1..] == Unwords(ts[1..]);
      }
      TokensUnwords(ts[1..]);
      assert ts == [ts[0]] + ts[1..];
    }
  }

  // ----- One line -----

  predicate IsLetter(c: char) { 'A' <= c <= 'Z' || 'a' <= c <= 'z' }
  predicate IsDigit(c: char) { '0' <= c <= '9' }

  /** The parameter-name pattern `[A-Za-z][A-Za-z_0-9\.]*`. */
  predicate IsName(t: string) {
    |t| >= 1 && IsLetter(t[0])
    && forall i :: 1 <= i < |t| ==> IsLetter(t[i]) || IsDigit(t[i]) || t[i] == '_' || t[i] == '.'
  }

  /** Only a `#` in the very first column starts a comment. */
  predicate IsComment(line: string) { |line| > 0 && line[0] == '#' }

  /** Every component read with `stod`, failing if any one fails. */
  function RealsOf(ts: seq<string>, stod: Stod): (r: Option<seq<real>>)
    ensures r.Some? <==> forall i :: 0 <= i < |ts| ==> stod(ts[i]).Some?
    ensures r.Some? ==> |r.value| == |ts| && forall i :: 0 <= i < |ts| ==> r.value[i] == stod(ts[i]).value
  {
    if ts == [] then Some([])
    else match stod(ts[0])
      case None => None
      case Some(x) =>
        match RealsOf(ts[1..], stod)
        case None => None
        case Some(xs) => Some([x] + xs)
  }

  /** The value written by the tokens after the name: one token is an Integer
    * unless it holds a '.', two to four tokens are a vector. */
  function ValueOf(vs: seq<string>, stol: Stol, stod: Stod): (r: Option<Value>)
    requires 1 <= |vs| <= 4
    ensures |vs| == 1 && '.' !in vs[0] ==>
      (r.Some? <==> stol(vs[0]).Some?) && (r.Some? ==> r.value == Integer(stol(vs[0]).value))
    ensures |vs| == 1 && '.' in vs[0] ==>
      (r.Some? <==> stod(vs[0]).Some?) && (r.Some? ==> r.value == Real(stod(vs[0]).value))
    ensures |vs| > 1 ==> (r.Some? <==> forall i :: 0 <= i < |vs| ==> stod(vs[i]).Some?)
    ensures |vs| > 1 && r.Some? ==>
      r.value.Vector? && |r.value.components| == |vs| && forall i :: 0 <= i < |vs| ==> r.value.components[i] == stod(vs[i]).value
  {
    if |vs| == 1 then
      if '.' !in vs[0] then (match stol(vs[0]) case None => None case Some(i) => Some(Integer(i)))
      else (match stod(vs[0]) case None => None case Some(x) => Some(Real(x)))
    else
      match RealsOf(vs, stod) case None => None case Some(xs) => Some(Vector(xs))
  }

  /** What one line (number `l`) contributes: nothing, a named value, or an
    * error. */
  function Entry(file: string, l: nat, line: string, stol: Stol, stod: Stod): Result<Option<(string, Value)>, Error> {
    if IsComment(line) then Ok(None)
    else
      var ts := Tokens(line);
      if |ts| == 0 then Ok(None)
      else if !IsName(ts[0]) then Err(InvalidName(file, l, ts[0]))
      else if |ts| == 1 then Err(OneToken(file, l, line))
      else if |ts| > 5 then Err(TooManyTokens(file, l, line))
      else match ValueOf(ts[1..], stol, stod)
        case None => Err(BadNumber(file, l))
        case Some(v) => Ok(Some((ts[0], v)))
  }

  // ----- A whole file -----

  /** Where parsing stands: the parameters so far, and the error that
    * stopped it, if any. */
  datatype Progress = Progress(parameters: map<string, Value>, failure: Option<Error>)

  /** One more line, unless an error already stopped the parse; a name that
    * is already present is a duplicate. */
  function Step(p: Progress, file: string, l: nat, line: string, stol: Stol, stod: Stod): Progress {
    if p.failure.Some? then p
    else match Entry(file, l, line, stol, stod)
      case Err(e) => Progress(p.parameters, Some(e))
      case Ok(None) => p
      case Ok(Some((name, v))) =>
        if name in p.parameters then Progress(p.parameters, Some(Duplicate(file, l, name)))
        else Progress(p.parameters[name := v], None)
  }

  /** The parse of `lines` (numbered from 1) on top of `params`. */
  function Parsed(params: map<string, Value>, file: string, lines: seq<string>, stol: Stol, stod: Stod): Progress {
    if lines == [] then Progress(params, None)
    else Step(Parsed(params, file, lines[..|lines| - 1], stol, stod), file, |lines|, lines[|lines| - 1], stol, stod)
  }

  /** The parse of each file in turn, stopping at the first failure. */
  function ParsedFiles(params: map<string, Value>, files: seq<string>, read: string -> Option<seq<string>>, stol: Stol, stod: Stod): Progress {
    if files == [] then Progress(params, None)
    else
      var p := ParsedFiles(params, files[..|files| - 1], read, stol, stod);
      var file := files[|files| - 1];
      if p.failure.Some? then p
      else match read(file)
        case None => Progress(p.parameters, Some(CannotOpen(file)))
        case Some(lines) => Parsed(p.parameters, file, lines, stol, stod)
  }

  lemma ParsedSnoc(params: map<string, Value>, file: string, lines: seq<string>, line: string, stol: Stol, stod: Stod)
    ensures Parsed(params, file, lines + [line], stol, stod)
      == Step(Parsed(params, file, lines, stol, stod), file, |lines| + 1, line, stol, stod)
  {
    assert (lines + [line])[..|lines|] == lines;
  }

  /** Parsing never replaces or removes a parameter that is already there. */
  lemma {:induction false} ParsedExtends(params: map<string, Value>, file: string, lines: seq<string>, stol: Stol, stod: Stod)
    ensures forall n :: n in params ==>
      n in Parsed(params, file, lines, stol, stod).parameters && Parsed(params, file, lines, stol, stod).parameters[n] == params[n]
  {
    if lines != [] {
      ParsedExtends(params, file, lines[..|lines| - 1], stol, stod);
    }
  }

  /** Once an error stops the parse, later lines change nothing. */
  lemma {:induction false} ErrorIsFinal(params: map<string, Value>, file: string, lines: seq<string>, k: nat, stol: Stol, stod: Stod)
    requires k <= |lines|
    requires Parsed(params, file, lines[..k], stol, stod).failure.Some?
    ensures Parsed(params, file, lines, stol, stod) == Parsed(params, file, lines[..k], stol, stod)
    decreases |lines|
  {
    if k < |lines| {
      assert lines[..|lines| - 1][..k] == lines[..k];
      ErrorIsFinal(params, file, lines[..|lines| - 1], k, stol, stod);
    } else {
      assert lines[..k] == lines;
    }
  }

  /** A successful parse succeeded on every prefix of the file too. */
  lemma PrefixSucceeds(params: map<string, Value>, file: string, lines: seq<string>, k: nat, stol: Stol, stod: Stod)
    requires k <= |lines|
    requires Parsed(params, file, lines, stol, stod).failure.None?
    ensures Parsed(params, file, lines[..k], stol, stod).failure.None?
  {
    if Parsed(params, file, lines[..k], stol, stod).failure.Some? {
      ErrorIsFinal(params, file, lines, k, stol, stod);
    }
  }

  /** After a successful parse, each parameter line's value is stored under
    * its name (line `i` is line number `i + 1`). */
  lemma {:induction false} DefinedLinesStored(params: map<string, Value>, file: string, lines: seq<string>, i: nat, stol: Stol, stod: Stod)
    requires i < |lines|
    requires Parsed(params, file, lines, stol, stod).failure.None?
    requires Entry(file, i + 1, lines[i], stol, stod).Ok? && Entry(file, i + 1, lines[i], stol, stod).value.Some?
    ensures var (name, v) := Entry(file, i + 1, lines[i], stol, stod).value.value;
      name in Parsed(params, file, lines, stol, stod).parameters && Parsed(params, file, lines, stol, stod).parameters[name] == v
    decreases |lines|
  {
    var init := lines[..|lines| - 1];
    PrefixSucceeds(params, file, lines, |lines| - 1, stol, stod);
    var before := Parsed(params, file, init, stol, stod);
    ParsedExtends(before.parameters, file, [], stol, stod);
    if i < |lines| - 1 {
      assert init[i] == lines[i];
      DefinedLinesStored(params, file, init, i, stol, stod);
    }
  }

  /** A successful parse never met a name twice: not on two lines of the
    * file, nor on a line and among the parameters it started from (which is
    * how `make(files)` rejects a name repeated in a later file). */
  lemma {:induction false} NoRepeatedNames(params: map<string, Value>, file: string, lines: seq<string>, i: nat, j: nat, stol: Stol, stod: Stod)
    requires i < j < |lines|
    requires Parsed(params, file, lines, stol, stod).failure.None?
    requires Entry(file, j + 1, lines[j], stol, stod).Ok? && Entry(file, j + 1, lines[j], stol, stod).value.Some?
    ensures Entry(file, j + 1, lines[j], stol, stod).value.value.0 !in params
    ensures Entry(file, i + 1, lines[i], stol, stod).Ok? && Entry(file, i + 1, lines[i], stol, stod).value.Some?
      ==> Entry(file, i + 1, lines[i], stol, stod).value.value.0 != Entry(file, j + 1, lines[j], stol, stod).value.value.0
  {
    var name := Entry(file, j + 1, lines[j], stol, stod).value.value.0;
    var upto := lines[..j + 1];
    PrefixSucceeds(params, file, lines, j + 1, stol, stod);
    PrefixSucceeds(params, file, lines, j, stol, stod);
    assert upto[..j] == lines[..j];
    var before := Parsed(params, file, lines[..j], stol, stod);
    assert name !in before.parameters;
    ParsedExtends(params, file, lines[..j], stol, stod);
    if Entry(file, i + 1, lines[i], stol, stod).Ok? && Entry(file, i + 1, lines[i], stol, stod).value.Some? {
      assert lines[..j][i] == lines[i];
      DefinedLinesStored(params, file, lines[..j], i, stol, stod);
    }
  }

  /** The classification of a line, case by case. */
  lemma LineRules(file: string, l: nat, line: string, stol: Stol, stod: Stod)
    ensures IsComment(line) || Tokens(line) == [] ==> Entry(file, l, line, stol, stod) == Ok(None)
    ensures !IsComment(line) && Tokens(line) != [] && !IsName(Tokens(line)[0])
      ==> Entry(file, l, line, stol, stod) == Err(InvalidName(file, l, Tokens(line)[0]))
    ensures !IsComment(line) && |Tokens(line)| == 1 && IsName(Tokens(line)[0])
      ==> Entry(file, l, line, stol, stod) == Err(OneToken(file, l, line))
    ensures !IsComment(line) && |Tokens(line)| > 5 && IsName(Tokens(line)[0])
      ==> Entry(file, l, line, stol, stod) == Err(TooManyTokens(file, l, line))
    ensures Entry(file, l, line, stol, stod).Ok? && Entry(file, l, line, stol, stod).value.Some?
      ==> 2 <= |Tokens(line)| <= 5 && Entry(file, l, line, stol, stod).value.value.0 == Tokens(line)[0]
  {
  }

  /** A `#` that is not in the first column does not make a comment: such a
    * line fails the name check. */
  lemma IndentedHashIsAnError(file: string, l: nat, line: string, stol: Stol, stod: Stod)
    requires |line| > 0 && IsSpace(line[0])
    requires Tokens(line) != [] && Tokens(line)[0][0] == '#'
    ensures Entry(file, l, line, stol, stod).Err? && Entry(file, l, line, stol, stod).error.InvalidName?
  {
  }

  // ----- The configuration object -----

  class Configuration {
    var parameters: map<string, Value>

    constructor()
      ensures parameters == map[]
    {
      parameters := map[];
    }

    /** `_add`: a name already present is an error and changes nothing. */
    method Add(name: string, value: Value, file: string, l: nat) returns (r: Result<(), Error>)
      modifies this
      ensures r.Err? <==> name in old(parameters)
      ensures r.Err? ==> r.error == Duplicate(file, l, name) && parameters == old(parameters)
      ensures r.Ok? ==> parameters == old(parameters)[name := value]
    {
      if name in parameters {
        return Err(Duplicate(file, l, name));
      }
      parameters := parameters[name := value];
      r := Ok(());
    }

    /** `_parse`: reads the lines in order, counting them from 1, and stops
      * at the first error; the parameters added before it stay. */
    method Parse(file: string, contents: Option<seq<string>>, stol: Stol, stod: Stod) returns (r: Result<(), Error>)
      modifies this
      ensures contents.None? ==> r == Err(CannotOpen(file)) && parameters == old(parameters)
      ensures contents.Some? ==>
        var p := Parsed(old(parameters), file, contents.value, stol, stod);
        parameters == p.parameters && (r.Err? <==> p.failure.Some?) && (r.Err? ==> r.error == p.failure.value)
    {
      if contents.None? {
        return Err(CannotOpen(file));
      }
      var lines := contents.value;
      ghost var start := parameters;
      var l := 0;
      while l < |lines|
        invariant 0 <= l <= |lines|
        invariant Parsed(start, file, lines[..l], stol, stod) == Progress(parameters, None)
      {
        var line := lines[l];
        ParsedSnoc(start, file, lines[..l], line, stol, stod);
        assert lines[..l + 1] == lines[..l] + [line];
        l := l + 1;
        var entry := Entry(file, l, line, stol, stod);
        if entry.Err? {
          ErrorIsFinal(start, file, lines, l, stol, stod);
          return Err(entry.error);
        }
        if entry.value.Some? {
          var added := Add(entry.value.value.0, entry.value.value.1, file, l);
          if added.Err? {
            ErrorIsFinal(start, file, lines, l, stol, stod);
            return added;
          }
        }
      }
      assert lines[..l] == lines;
      r := Ok(());
    }

    /** `get`: the parameter named `name`, if any. */
    method Get(name: string) returns (v: Option<Value>)
      ensures v.Some? <==> name in parameters
      ensures v.Some? ==> v.value == parameters[name]
    {
      if name in parameters {
        v := Some(parameters[name]);
      } else {
        v := None;
      }
    }

    /** `operator[]`: like `get`, but an absent name is an error. */
    method At(name: string) returns (r: Result<Value, Error>)
      ensures r.Err? <==> name !in parameters
      ensures r.Err? ==> r.error == NotFound(name)
      ensures r.Ok? ==> r.value == parameters[name]
    {
      var v := Get(name);
      if v.None? {
        return Err(NotFound(name));
      }
      r := Ok(v.value);
    }
  }

  /** `make(file)`: a new configuration holding the parameters of one file. */
  method Make(file: string, contents: Option<seq<string>>, stol: Stol, stod: Stod) returns (r: Result<Configuration, Error>)
    ensures contents.None? ==> r == Err(CannotOpen(file))
    ensures contents.Some? ==> (r.Err? <==> Parsed(map[], file, contents.value, stol, stod).failure.Some?)
    ensures r.Ok? ==>
      fresh(r.value) && contents.Some? && r.value.parameters == Parsed(map[], file, contents.value, stol, stod).parameters
  {
    var config := new Configuration();
    var parsed := config.Parse(file, contents, stol, stod);
    if parsed.Err? {
      return Err(parsed.error);
    }
    r := Ok(config);
  }

  /** `make(files)`: the files parsed in order into one configuration, so a
    * name defined by two files is a duplicate. */
  method MakeAll(files: seq<string>, read: string -> Option<seq<string>>, stol: Stol, stod: Stod) returns (r: Result<Configuration, Error>)
    ensures r.Err? <==> ParsedFiles(map[], files, read, stol, stod).failure.Some?
    ensures r.Err? ==> r.error == ParsedFiles(map[], files, read, stol, stod).failure.value
    ensures r.Ok? ==> fresh(r.value) && r.value.parameters == ParsedFiles(map[], files, read, stol, stod).parameters
  {
    var config := new Configuration();
    for k := 0 to |files|
      invariant ParsedFiles(map[], files[..k], read, stol, stod) == Progress(config.parameters, None)
    {
      assert files[..k + 1][..k] == files[..k];
      var parsed := config.Parse(files[k], read(files[k]), stol, stod);
      if parsed.Err? {
        FilesErrorIsFinal(map[], files, read, k + 1, stol, stod);
        return Err(parsed.error);
      }
    }
    assert files[..|files|] == files;
    r := Ok(config);
  }

  lemma {:induction false} FilesErrorIsFinal(params: map<string, Value>, files: seq<string>, read: string -> Option<seq<string>>, k: nat, stol: Stol, stod: Stod)
    requires k <= |files|
    requires ParsedFiles(params, files[..k], read, stol, stod).failure.Some?
    ensures ParsedFiles(params, files, read, stol, stod) == ParsedFiles(params, files[..k], read, stol, stod)
    decreases |files|
  {
    if k < |files| {
      assert files[..|files| - 1][..k] == files[..k];
      FilesErrorIsFinal(params, files[..|files| - 1], read, k, stol, stod);
    } else {
      assert files[..k] == files;
    }
  }
}
