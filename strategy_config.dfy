/**
 * Importable trading-strategy configurations: the "path.to.module:Class"
 * path and its two parts, and the checks `StrategyFactory.create` makes
 * before it imports a strategy class or executes strategy source code.
 * The import and the execution themselves are not modelled: an outcome
 * names the branch taken and what it would have been given.
 */
module StrategyConfig {
  import opened Common

  // ----- the base strategy configuration -----

  datatype TradingStrategyConfig = TradingStrategyConfig(orderIdTag: string, omsType: string)

  /** A `TradingStrategyConfig` built with no arguments. */
  function DefaultStrategyConfig(): (c: TradingStrategyConfig)
    ensures c.orderIdTag == "000" && c.omsType == "HEDGING"
  {
    TradingStrategyConfig("000", "HEDGING")
  }

  // ----- the importable configuration -----

  /** The `config` field holds either a strategy configuration or a plain string. */
  datatype ConfigRef = Typed(config: TradingStrategyConfig) | Untyped(text: string)

  datatype ImportableStrategyConfig = ImportableStrategyConfig(
    path: Option<string>,
    source: Option<seq<byte>>,
    config: ConfigRef)

  /** The exceptions the modelled code raises. */
  datatype Failure = ValueError(message: string) | AssertionError(message: string)

  datatype Result<T> = Ok(value: T) | Err(failure: Failure)

  const PathNotSet := "`path` not set, can't parse module"
  const PathWithoutColon := "Path variable should be of the form: path.to.module:class"
  const NothingToLoad := "both `source` and `path` were None"

  // ----- splitting at every colon -----

  /**
   * `s.rsplit(sep)` with no limit: the pieces between the separators, from
   * left to right, empty pieces included.
   */
  function Split(s: string, sep: char): (r: seq<string>)
    ensures |r| >= 1
    ensures forall i :: 0 <= i < |r| ==> sep !in r[i]
    ensures sep !in s ==> r == [s]
  {
    if |s| == 0 then [""]
    else
      var rest := Split(s[1..], sep);
      if s[0] == sep then [""] + rest
      else
        assert s == [s[0]] + s[1..];
        [[s[0]] + rest[0]] + rest[1..]
  }

  /** `sep.join(parts)`. */
  function Join(parts: seq<string>, sep: char): string
    requires |parts| >= 1
  {
    if |parts| == 1 then parts[0] else parts[0] + [sep] + Join(parts[1..], sep)
  }

  /** Joining the pieces gives the string back. */
  lemma {:induction false} JoinSplit(s: string, sep: char)
    ensures Join(Split(s, sep), sep) == s
  {
    if |s| > 0 {
      var rest := Split(s[1..], sep);
      JoinSplit(s[1..], sep);
      if s[0] == sep {
        assert ([""] + rest)[1..] == rest;
      } else {
        var r := [[s[0]] + rest[0]] + rest[1..];
        if |rest| == 1 {
          assert r == [[s[0]] + rest[0]];
        } else {
          assert r[1..] == rest[1..];
          assert Join(rest, sep) == rest[0] + [sep] + Join(rest[1..], sep);
        }
        assert s == [s[0]] + s[1..];
      }
    }
  }

  /** Splitting pieces joined with a separator none of them holds gives the pieces back. */
  lemma {:induction false} SplitJoin(parts: seq<string>, sep: char)
    requires |parts| >= 1
    requires forall i :: 0 <= i < |parts| ==> sep !in parts[i]
    ensures Split(Join(parts, sep), sep) == parts
  {
    if |parts| > 1 {
      SplitJoin(parts[1..], sep);
      SplitPrefix(parts[0], sep, Join(parts[1..], sep));
      assert parts == [parts[0]] + parts[1..];
    }
  }

  /** A separator-free prefix followed by the separator becomes the first piece. */
  lemma {:induction false} SplitPrefix(head: string, sep: char, tail: string)
    requires sep !in head
    ensures Split(head + [sep] + tail, sep) == [head] + Split(tail, sep)
  {
    var s := head + [sep] + tail;
    if |head| == 0 {
      assert s == [sep] + tail;
      assert s[1..] == tail;
    } else {
      assert s[1..] == head[1..] + [sep] + tail;
      SplitPrefix(head[1..], sep, tail);
      assert [head[0]] + head[1..] == head;
    }
  }

  /** The first piece is the text before the first separator. */
  lemma {:induction false} SplitFirst(s: string, sep: char)
    requires sep in s
    ensures |Split(s, sep)| >= 2
    ensures |Split(s, sep)[0]| < |s|
    ensures s[..|Split(s, sep)[0]|] == Split(s, sep)[0]
    ensures s[|Split(s, sep)[0]|] == sep
  {
    if s[0] != sep {
      SplitFirst(s[1..], sep);
      var rest := Split(s[1..], sep);
      assert s[1..][..|rest[0]|] == rest[0];
      assert s[..|rest[0]| + 1] == [s[0]] + s[1..][..|rest[0]|];
    }
  }

  // ----- path, module and class -----

  /** `_check_path`: the path is set, not empty, and holds a colon. */
  function CheckPath(path: Option<string>): (r: Result<string>)
    ensures r.Ok? <==> path.Some? && path.value != [] && ':' in path.value
    ensures r.Ok? ==> r.value == path.value
    ensures (path.None? || path.value == []) ==> r == Err(AssertionError(PathNotSet))
    ensures path.Some? && path.value != [] && ':' !in path.value ==> r == Err(AssertionError(PathWithoutColon))
  {
    if path.None? || path.value == [] then Err(AssertionError(PathNotSet))
    else if ':' !in path.value then Err(AssertionError(PathWithoutColon))
    else Ok(path.value)
  }

  /** The `module` property: the piece before the first colon. */
  function Module(c: ImportableStrategyConfig): (r: Result<string>)
    ensures r.Err? <==> CheckPath(c.path).Err?
    ensures r.Err? ==> r == Err(CheckPath(c.path).failure)
    ensures r.Ok? ==> (':' !in r.value && |r.value| < |c.path.value|
                       && c.path.value[..|r.value|] == r.value && c.path.value[|r.value|] == ':')
  {
    match CheckPath(c.path)
    case Err(f) => Err(f)
    case Ok(p) =>
      SplitFirst(p, ':');
      Ok(Split(p, ':')[0])
  }

  /** The `cls` property: the piece between the first and the second colon. */
  function Cls(c: ImportableStrategyConfig): (r: Result<string>)
    ensures r.Err? <==> CheckPath(c.path).Err?
    ensures r.Err? ==> r == Err(CheckPath(c.path).failure)
    ensures r.Ok? ==> ':' !in r.value
  {
    match CheckPath(c.path)
    case Err(f) => Err(f)
    case Ok(p) =>
      SplitFirst(p, ':');
      Ok(Split(p, ':')[1])
  }

  /** The number of colons in a string. */
  function Colons(s: string): nat {
    if |s| == 0 then 0 else (if s[0] == ':' then 1 else 0) + Colons(s[1..])
  }

  /** As many pieces as separators plus one. */
  lemma {:induction false} SplitCount(s: string)
    ensures |Split(s, ':')| == Colons(s) + 1
  {
    if |s| > 0 {
      SplitCount(s[1..]);
    }
  }

  /** With exactly one colon, module, colon and class spell out the path. */
  lemma ModuleColonCls(c: ImportableStrategyConfig)
    requires c.path.Some? && Colons(c.path.value) == 1
    ensures Module(c).Ok? && Cls(c).Ok?
    ensures Module(c).value + ":" + Cls(c).value == c.path.value
  {
    var p := c.path.value;
    SplitCount(p);
    assert ':' in p by {
      ColonsWitness(p);
    }
    JoinSplit(p, ':');
    var parts := Split(p, ':');
    assert Join(parts, ':') == parts[0] + [':'] + parts[1];
  }

  /** A string with a colon count above zero holds a colon. */
  lemma {:induction false} ColonsWitness(s: string)
    requires Colons(s) > 0
    ensures ':' in s
  {
    if s[0] != ':' {
      ColonsWitness(s[1..]);
      var i :| 0 <= i < |s[1..]| && s[1..][i] == ':';
      assert s[i + 1] == ':';
    }
  }

  /** With more colons the class is still the second piece, not the last. */
  lemma ClsOfThreePieces(m: string, k: string, rest: string)
    requires ':' !in m && ':' !in k
    ensures Cls(ImportableStrategyConfig(Some(m + ":" + k + ":" + rest), None, Untyped(""))) == Ok(k)
    ensures Module(ImportableStrategyConfig(Some(m + ":" + k + ":" + rest), None, Untyped(""))) == Ok(m)
  {
    var p := m + ":" + k + ":" + rest;
    assert p == m + [':'] + (k + [':'] + rest);
    SplitPrefix(m, ':', k + [':'] + rest);
    SplitPrefix(k, ':', rest);
    assert p[|m|] == ':';
  }

  // ----- blank values -----

  /** Python's `str.isspace` on one character: the Unicode whitespace characters. */
  predicate IsSpaceChar(ch: char) {
    var n := ch as int;
    (0x09 <= n <= 0x0d) || (0x1c <= n <= 0x20) || n == 0x85 || n == 0xa0 || n == 0x1680
    || (0x2000 <= n <= 0x200a) || n == 0x2028 || n == 0x2029 || n == 0x202f || n == 0x205f || n == 0x3000
  }

  /**
   * `str.isspace`: not empty, and whitespace only. A whitespace string holds
   * no colon, so it can never pass the path check.
   */
  predicate IsSpace(s: string): (r: bool)
    ensures r ==> s != "" && ':' !in s
  {
    |s| > 0 && forall i :: 0 <= i < |s| ==> IsSpaceChar(s[i])
  }

  /**
   * `bytes.isspace`: not empty, and ASCII space, tab, newline, return,
   * vertical tab or form feed only, so never a printable character.
   */
  predicate BytesIsSpace(b: seq<byte>): (r: bool)
    ensures r ==> b != [] && forall i :: 0 <= i < |b| ==> b[i] <= 0x20
  {
    |b| > 0 && forall i :: 0 <= i < |b| ==> b[i] in {0x20, 0x09, 0x0a, 0x0d, 0x0b, 0x0c}
  }

  /** A path that is missing or whitespace only. */
  predicate PathBlank(path: Option<string>) {
    path.None? || IsSpace(path.value)
  }

  /** A source that is missing or whitespace only. */
  predicate SourceBlank(source: Option<seq<byte>>) {
    source.None? || BytesIsSpace(source.value)
  }

  // ----- StrategyFactory.create -----

  /**
   * What `create` does: raise, construct the class `className` of module `moduleName`
   * with a strategy configuration, or execute strategy source code and
   * return no strategy.
   */
  datatype Outcome =
    | Raised(failure: Failure)
    | Constructed(moduleName: string, className: string, config: TradingStrategyConfig)
    | SourceRun(source: seq<byte>)

  /**
   * The import branch: module and class from the path, then the check that
   * the configuration is a `TradingStrategyConfig`.
   */
  function ImportBranch(c: ImportableStrategyConfig): (r: Outcome)
    ensures r.Constructed? <==> CheckPath(c.path).Ok? && c.config.Typed?
    ensures r.Constructed? ==> r == Constructed(Module(c).value, Cls(c).value, c.config.config)
    ensures CheckPath(c.path).Err? ==> r == Raised(CheckPath(c.path).failure)
    ensures CheckPath(c.path).Ok? && c.config.Untyped? ==> r == Raised(AssertionError(""))
    ensures r.Raised? ==> r.failure.AssertionError?
  {
    match Module(c)
    case Err(f) => Raised(f)
    case Ok(m) =>
      var k := Cls(c).value;
      match c.config
      case Untyped(_) => Raised(AssertionError(""))
      case Typed(config) => Constructed(m, k, config)
  }

  /** `StrategyFactory.create` as written. */
  function Create(c: ImportableStrategyConfig): (r: Outcome)
    ensures r == Raised(ValueError(NothingToLoad)) <==> PathBlank(c.path) && SourceBlank(c.source)
    ensures !(PathBlank(c.path) && SourceBlank(c.source)) && c.path.Some? ==> r == ImportBranch(c)
    ensures !r.SourceRun?
  {
    if PathBlank(c.path) && SourceBlank(c.source) then Raised(ValueError(NothingToLoad))
    else if c.path.Some? then ImportBranch(c)
    else
      // the source branch names its module by `config.module`, which checks the path
      match Module(c)
      case Err(f) => Raised(f)
      case Ok(_) =>
        match c.source
        case Some(source) => SourceRun(source)
        case None => Raised(ValueError(NothingToLoad))
  }

  /** `create` with the source branch running the source, as its shape intends. */
  function CreateIntended(c: ImportableStrategyConfig): (r: Outcome)
    ensures r == Raised(ValueError(NothingToLoad)) <==> PathBlank(c.path) && SourceBlank(c.source)
    ensures !(PathBlank(c.path) && SourceBlank(c.source)) && c.path.Some? ==> r == ImportBranch(c)
    ensures c.path.None? && !SourceBlank(c.source) ==> r == SourceRun(c.source.value)
  {
    if PathBlank(c.path) && SourceBlank(c.source) then Raised(ValueError(NothingToLoad))
    else if c.path.Some? then ImportBranch(c)
    else SourceRun(c.source.value)
  }

  /** As written, the source branch always fails its path check. */
  lemma SourceBranchAlwaysFails(c: ImportableStrategyConfig)
    requires c.path.None? && !SourceBlank(c.source)
    ensures Create(c) == Raised(AssertionError(PathNotSet))
    ensures CreateIntended(c) == SourceRun(c.source.value)
  {
  }

  /** Apart from the source branch, the two agree. */
  lemma CreateAgreesOnPaths(c: ImportableStrategyConfig)
    requires c.path.Some? || SourceBlank(c.source)
    ensures Create(c) == CreateIntended(c)
  {
  }

  /** A path that is set and not whitespace wins over any source. */
  lemma PathWinsOverSource(c: ImportableStrategyConfig, source: Option<seq<byte>>)
    requires c.path.Some? && !IsSpace(c.path.value)
    ensures Create(c) == Create(c.(source := source)) == ImportBranch(c)
  {
  }

  /** An empty path is not whitespace, so it passes the first check and fails the path check. */
  lemma EmptyPathFailsPathCheck(c: ImportableStrategyConfig)
    requires c.path == Some("")
    ensures Create(c) == Raised(AssertionError(PathNotSet))
  {
  }

  /** A whitespace-only path fails the path check when a source is given. */
  lemma BlankPathWithSource(c: ImportableStrategyConfig)
    requires c.path.Some? && IsSpace(c.path.value) && !SourceBlank(c.source)
    ensures Create(c) == Raised(AssertionError(PathWithoutColon))
  {
  }

  /** A well-formed path with a typed configuration constructs its class with that configuration. */
  lemma CreateFromPath(m: string, k: string, config: TradingStrategyConfig, source: Option<seq<byte>>)
    requires ':' !in m && ':' !in k
    ensures Create(ImportableStrategyConfig(Some(m + ":" + k), source, Typed(config))) == Constructed(m, k, config)
  {
    var c := ImportableStrategyConfig(Some(m + ":" + k), source, Typed(config));
    var p := m + ":" + k;
    assert p[|m|] == ':';
    assert !IsSpace(p) by {
      assert !IsSpaceChar(p[|m|]);
    }
    assert p == Join([m, k], ':');
    SplitJoin([m, k], ':');
  }
}
