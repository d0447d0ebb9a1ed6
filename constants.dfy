/**
 * Return codes, fixed paths and extensions of the uki engine, and the outcome
 * types through which the model reports them.
 */
module Constants {
  import opened Wrappers

  /** Every failure code the library defines (`UKI_ERROR` is `General`). */
  datatype Error =
    | General
    | NoManifest
    | NoVariables
    | NoArticle
    | NoTemplate
    | NoMainTemplate
    | IndexNotFound
    | VariableNotFound
    | BodyVarNotFound
    | ParsingArticle
    | ParsingVariables
    | ParsingTemplate
    | ReadingTemplate
    | DirListNotFound
    | DirListFileUnknown
    | ConversionAW
    | ConversionWA
    | RegexAssetImage

  /** The integer `UKI_OK`. */
  const OkCode: int := 1

  /** The integer each failure is reported as. */
  function Code(e: Error): (c: int)
    ensures c != OkCode && c <= 0
  {
    match e
    case General => 0
    case NoManifest => -11
    case NoVariables => -12
    case NoArticle => -13
    case NoTemplate => -14
    case NoMainTemplate => -15
    case IndexNotFound => -16
    case VariableNotFound => -17
    case BodyVarNotFound => -18
    case ParsingArticle => -21
    case ParsingVariables => -22
    case ParsingTemplate => -23
    case ReadingTemplate => -24
    case DirListNotFound => -31
    case DirListFileUnknown => -32
    case ConversionAW => -41
    case ConversionWA => -42
    case RegexAssetImage => -51
  }

  /** Distinct failures are reported as distinct integers. */
  lemma CodeInjective(a: Error, b: Error)
    ensures Code(a) == Code(b) <==> a == b
  {
  }

  /**
   * What a status-returning operation reports. `FuelOut` is not a code of the
   * library: it stands for a recursion that the source would never finish.
   */
  datatype Status = Success | Failure(error: Error) | FuelOut

  /**
   * The value of a recursive rendering step. `Exhausted` means the fuel bound of
   * the model ran out, i.e. the source would keep recursing.
   */
  datatype Outcome = Done(text: string) | Failed(error: Error) | Exhausted

  function StatusOf(o: Outcome): (s: Status)
    ensures s == Success <==> o.Done?
    ensures s == FuelOut <==> o.Exhausted?
    ensures o.Failed? ==> s == Failure(o.error)
  {
    match o
    case Done(_) => Success
    case Failed(e) => Failure(e)
    case Exhausted => FuelOut
  }

  /**
   * The files the library can see, by path: a present key is a file that
   * exists, and its value is None when reading it fails.
   */
  type FileSystem = map<string, Option<string>>

  /** A directory listing as the filesystem layer delivers it (its order is not sorted). */
  datatype Listing = Listed(paths: seq<string>) | ListFailed(error: Error)

  const ManifestPath: string := "/MANIFEST.uki"
  const VariablePath: string := "/VARIABLES.uki"
  const ArticleRoot: string := "/pages/"
  const TemplateRoot: string := "/templates/"
  const AssetsRoot: string := "/assets/"
  /** The template extension as the template engine sees it. */
  const TemplateExt: string := "htm"
  /** The article extension as the page renderer sees it. */
  const ArticleExt: string := "html"
  const MainTemplateKey: string := "main_template"
}
