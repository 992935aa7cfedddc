/** The pure helpers of the command-line options (cli/options/src/lib.rs):
    the `-`-or-path argument, path normalisation of the parsed command, the
    names of the backends, and the hand-over of options to the exporter.
    Command-line parsing itself, the file system and the clock are not
    modelled; the current directory and path cleaning are parameters. */
module CliOptions {

  import opened Wrappers
  import FrontendOptions

  /** An operating-system path, as its characters. */
  type PathBuf = string

  /** An output destination: standard output, written `-`, or a file. */
  datatype PathOrDash = Dash | Path(path: PathBuf)

  /** Parsing an argument: `-` is standard output and anything else is a
      path (lib.rs:36-44). */
  function PathOrDashFromOsStr(s: string): (r: PathOrDash)
    ensures r.Dash? <==> s == "-"
    ensures r.Path? ==> r.path == s
  {
    if s == "-" then Dash else Path(s)
  }

  /** How a destination is written on the command line. */
  function PathOrDashToOsStr(x: PathOrDash): string {
    match x
    case Dash => "-"
    case Path(p) => p
  }

  /** Parsing then writing back gives the argument as written; writing then
      parsing gives the destination back for every destination except a
      file literally named `-`, which parsing cannot produce. */
  lemma PathOrDashRoundTrip(s: string, x: PathOrDash)
    ensures PathOrDashToOsStr(PathOrDashFromOsStr(s)) == s
    ensures PathOrDashFromOsStr(PathOrDashToOsStr(x)) == x <==> x != Path("-")
  {
  }

  /** Applying a function to the path, if there is one (lib.rs:53-58). */
  function MapPath(x: PathOrDash, f: PathBuf -> PathBuf): (r: PathOrDash)
    ensures r.Dash? <==> x.Dash?
    ensures r.Path? ==> r.path == f(x.path)
  {
    match x
    case Dash => Dash
    case Path(p) => Path(f(p))
  }

  /** `MapPath` is a functor: the identity changes nothing and two maps are
      one map of the composition. */
  lemma MapPathFunctor(x: PathOrDash, f: PathBuf -> PathBuf, g: PathBuf -> PathBuf)
    ensures MapPath(x, p => p) == x
    ensures MapPath(MapPath(x, f), g) == MapPath(x, p => g(f(p)))
  {
  }

  /** The environment of path normalisation: the current directory (the
      source unwraps the error of reading it, so it is assumed available)
      and the lexical cleaning of `path_clean`, which is not part of this
      model. */
  datatype PathEnv = PathEnv(currentDir: PathBuf, clean: PathBuf -> PathBuf)

  /** A Unix absolute path starts at the root. */
  predicate IsAbsolute(p: PathBuf) {
    |p| > 0 && p[0] == '/'
  }

  /** `Path::join` with a relative path: one separator between the parts. */
  function JoinPath(base: PathBuf, p: PathBuf): (r: PathBuf)
    ensures IsAbsolute(base) ==> IsAbsolute(r)
    ensures |r| >= |base| + |p| && r[|r| - |p|..] == p
  {
    if |base| > 0 && base[|base| - 1] == '/' then base + p else base + "/" + p
  }

  /** `absolute_path` (lib.rs:61-73): an absolute path is kept, a relative
      one is resolved against the current directory, and the result is
      cleaned. */
  function AbsolutePath(env: PathEnv, p: PathBuf): (r: PathBuf)
    ensures exists q :: r == env.clean(q) && (q == p || (!IsAbsolute(p) && q == JoinPath(env.currentDir, p)))
    ensures IsAbsolute(p) ==> r == env.clean(p)
  {
    var q := if IsAbsolute(p) then p else JoinPath(env.currentDir, p);
    env.clean(q)
  }

  /** An environment where cleaning keeps absolute paths absolute and is
      idempotent on them, and the current directory is absolute, as
      `path_clean` and `current_dir` provide. */
  ghost predicate WellBehaved(env: PathEnv) {
    && IsAbsolute(env.currentDir)
    && forall q :: IsAbsolute(q) ==> IsAbsolute(env.clean(q)) && env.clean(env.clean(q)) == env.clean(q)
  }

  /** In a well-behaved environment the result is absolute and making it
      absolute again changes nothing. */
  lemma AbsolutePathIdempotent(env: PathEnv, p: PathBuf)
    requires WellBehaved(env)
    ensures IsAbsolute(AbsolutePath(env, p))
    ensures AbsolutePath(env, AbsolutePath(env, p)) == AbsolutePath(env, p)
  {
    var q := if IsAbsolute(p) then p else JoinPath(env.currentDir, p);
    assert IsAbsolute(q);
    assert AbsolutePath(env, p) == env.clean(q);
  }

  /** Normalising a destination: standard output stays, a path is made
      absolute (lib.rs:84-91). */
  function NormalizePathOrDash(x: PathOrDash, env: PathEnv): (r: PathOrDash)
    ensures r.Dash? <==> x.Dash?
    ensures r.Path? ==> IsAbsolute(x.path) ==> r.path == env.clean(x.path)
    ensures WellBehaved(env) && r.Path? ==> IsAbsolute(r.path)
  {
    match x
    case Dash => Dash
    case Path(p) =>
      assert WellBehaved(env) ==> IsAbsolute(AbsolutePath(env, p)) by {
        if WellBehaved(env) {
          AbsolutePathIdempotent(env, p);
        }
      }
      Path(AbsolutePath(env, p))
  }

  /** Normalising a destination is mapping `absolute_path` over it. */
  lemma NormalizeIsMapPath(x: PathOrDash, env: PathEnv)
    ensures NormalizePathOrDash(x, env) == MapPath(x, p => AbsolutePath(env, p))
  {
  }

  /** The code generators, in the order they are declared (lib.rs:93-101). */
  datatype Backend = Fstar | Coq | Easycrypt

  /** The name of a backend as displayed (lib.rs:103-111). */
  function BackendName(b: Backend): (r: string)
    ensures |r| > 0
  {
    match b
    case Fstar => "fstar"
    case Coq => "coq"
    case Easycrypt => "easycrypt"
  }

  /** Distinct backends display distinctly, so a name identifies its
      backend. */
  lemma BackendNameInjective(a: Backend, b: Backend)
    ensures BackendName(a) == BackendName(b) <==> a == b
  {
  }

  /** The backend options. The engine debugging directory is a path too,
      but normalisation leaves it alone. */
  datatype BackendOptions = BackendOptions(backend: Backend, dryRun: bool, debugEngine: Option<PathBuf>)

  datatype ExporterCommand =
    | BackendCommand(options: BackendOptions)
    | Json(outputFile: PathOrDash)

  /** The default JSON output file (lib.rs:140-144). */
  const DefaultJsonOutput: PathOrDash := Path("hax_frontend_export.json")

  datatype LinterCommand = Hacspec | Rust

  datatype Command =
    | ExporterCommand(exporter: ExporterCommand)
    | LintCommand(linter: LinterCommand)

  /** The macro paths folded back into calls unless the command line says
      otherwise (lib.rs:180-183). */
  const DefaultInlineMacroCalls: seq<FrontendOptions.Namespace> := [
    FrontendOptions.Namespace(["hacspec_lib", "array", "array"]),
    FrontendOptions.Namespace(["hacspec_lib", "array", "public_bytes"]),
    FrontendOptions.Namespace(["hacspec_lib", "array", "bytes"]),
    FrontendOptions.Namespace(["hacspec_lib", "math_integers", "public_nat_mod"]),
    FrontendOptions.Namespace(["hacspec_lib", "math_integers", "unsigned_public_integer"])
  ]

  /** The parsed command line. `forceCargoBuild` is the payload of the
      cache-busting flag, derived from the clock when parsing. */
  datatype Options = Options(
    inlineMacroCalls: seq<FrontendOptions.Namespace>,
    cargoFlags: seq<string>,
    command: Option<Command>,
    forceCargoBuild: nat
  )

  /** Normalising an exporter command: a backend command is kept as is and
      the JSON output file is normalised (lib.rs:202-212). */
  function NormalizeExporterCommand(c: ExporterCommand, env: PathEnv): (r: ExporterCommand)
    ensures r.BackendCommand? <==> c.BackendCommand?
    ensures c.BackendCommand? ==> r == c
    ensures c.Json? ==> r.outputFile == NormalizePathOrDash(c.outputFile, env)
  {
    match c
    case Json(outputFile) => Json(NormalizePathOrDash(outputFile, env))
    case BackendCommand(o) => BackendCommand(o)
  }

  /** Normalising a command: only exporter commands change (lib.rs:214-221). */
  function NormalizeCommand(c: Command, env: PathEnv): (r: Command)
    ensures r.LintCommand? <==> c.LintCommand?
    ensures c.LintCommand? ==> r == c
    ensures c.ExporterCommand? ==> r.exporter == NormalizeExporterCommand(c.exporter, env)
  {
    match c
    case ExporterCommand(cmd) => ExporterCommand(NormalizeExporterCommand(cmd, env))
    case _ => c
  }

  /** Normalising the options: only the command changes (lib.rs:222-229). */
  function NormalizeOptions(o: Options, env: PathEnv): (r: Options)
    ensures r.inlineMacroCalls == o.inlineMacroCalls && r.cargoFlags == o.cargoFlags
    ensures r.forceCargoBuild == o.forceCargoBuild
    ensures r.command.Some? <==> o.command.Some?
    ensures o.command.Some? ==> r.command.value == NormalizeCommand(o.command.value, env)
  {
    o.(command := match o.command case Some(c) => Some(NormalizeCommand(c, env)) case None => None)
  }

  /** The file the JSON export is written to, when the command asks for a
      JSON export to a file. */
  function OutputPath(o: Options): Option<PathBuf> {
    match o.command
    case Some(ExporterCommand(Json(Path(p)))) => Some(p)
    case _ => None
  }

  /** Normalisation makes the output path absolute and touches nothing
      else: the output destination kind, the backend and its options, and
      the linter are all preserved. */
  lemma NormalizeOnlyTouchesOutputPath(o: Options, env: PathEnv)
    ensures var r := NormalizeOptions(o, env);
            && (OutputPath(r).Some? <==> OutputPath(o).Some?)
            && (OutputPath(o).Some? ==> OutputPath(r).value == AbsolutePath(env, OutputPath(o).value))
            && (OutputPath(o).None? ==> r == o)
  {
  }

  /** In a well-behaved environment, normalising twice is normalising once. */
  lemma NormalizeIdempotent(o: Options, env: PathEnv)
    requires WellBehaved(env)
    ensures NormalizeOptions(NormalizeOptions(o, env), env) == NormalizeOptions(o, env)
  {
    match o.command
    case Some(ExporterCommand(Json(Path(p)))) =>
      AbsolutePathIdempotent(env, p);
    case _ =>
  }

  /** The options handed to the exporter: the macro patterns, copied
      verbatim (lib.rs:231-237). */
  function ToFrontendOptions(o: Options): (r: FrontendOptions.Options)
    ensures r.inlineMacroCalls == o.inlineMacroCalls
  {
    FrontendOptions.Options(o.inlineMacroCalls)
  }

  /** The exporter sees the same options whether or not the command line
      was normalised first. */
  lemma FrontendOptionsIgnoreNormalization(o: Options, env: PathEnv)
    ensures ToFrontendOptions(NormalizeOptions(o, env)) == ToFrontendOptions(o)
  {
  }
}
