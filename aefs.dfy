/**
 * The App Engine file system's file-name rules: which Google Cloud Storage bucket a relative
 * name goes to, and how a name becomes the absolute "/gs/<bucket>/<name>" form. The App
 * Engine context, and so the default bucket it yields, is a parameter.
 */
module AppEngineFS {
  import opened Wrappers
  import opened Identity
  import opened Text

  const GsPrefix: string := "/gs/"
  const UnknownAbsolutePattern: Error := Failure("makeFileNameAbsolute: unknown absolute filename pattern")

  /** The file system's bucket; a nil *AppEngineFS is None. */
  datatype FS = FS(bucket: string)

  /**
   * bucketName as written: the nil test shares its branch with the empty-bucket test, whose
   * call then reads the context through the nil pointer. None stands for that panic.
   */
  function BucketNameAsWritten(fs: Option<FS>, defaultBucket: Result<string, Error>): (r: Option<Result<string, Error>>)
    ensures r.None? <==> fs.None?
  {
    match fs
    case None => None
    case Some(f) => Some(if f.bucket == "" then defaultBucket else Ok(f.bucket))
  }

  /** The nil file system, which the guard is there for, cannot reach the default bucket. */
  lemma BucketNameAsWrittenPanicsOnNil(defaultBucket: Result<string, Error>)
    ensures BucketNameAsWritten(None, defaultBucket).None?
    ensures BucketName(None, defaultBucket) == defaultBucket
  {
  }

  /** bucketName as intended: the Bucket field when non-empty, the default bucket otherwise and for nil. */
  function BucketName(fs: Option<FS>, defaultBucket: Result<string, Error>): (r: Result<string, Error>)
    ensures fs.Some? && fs.value.bucket != "" ==> r == Ok(fs.value.bucket)
    ensures !(fs.Some? && fs.value.bucket != "") ==> r == defaultBucket
  {
    if fs.None? || fs.value.bucket == "" then defaultBucket else Ok(fs.value.bucket)
  }

  /** Wherever the code as written does not panic, it agrees with the intended function. */
  lemma BucketNameAgreesOffNil(fs: Option<FS>, defaultBucket: Result<string, Error>)
    requires fs.Some?
    ensures BucketNameAsWritten(fs, defaultBucket) == Some(BucketName(fs, defaultBucket))
  {
  }

  /**
   * makeFileNameAbsolute: a "/gs/" name is kept, any other absolute name is refused, and a
   * relative name is put under the bucket.
   */
  function MakeFileNameAbsolute(fs: Option<FS>, defaultBucket: Result<string, Error>, fileName: string): (r: Result<string, Error>)
    ensures HasPrefix(fileName, GsPrefix) ==> r == Ok(fileName)
    ensures !HasPrefix(fileName, GsPrefix) && HasPrefix(fileName, "/") ==> r == Err(UnknownAbsolutePattern)
    ensures !HasPrefix(fileName, "/") ==>
      r == match BucketName(fs, defaultBucket)
           case Err(e) => Err(e)
           case Ok(bucket) => Ok(GsPrefix + bucket + "/" + fileName)
  {
    if HasPrefix(fileName, GsPrefix) then Ok(fileName)
    else if HasPrefix(fileName, "/") then Err(UnknownAbsolutePattern)
    else
      match BucketName(fs, defaultBucket)
      case Err(e) => Err(e)
      case Ok(bucket) => Ok(GsPrefix + bucket + "/" + fileName)
  }

  /** Every name it produces is a "/gs/" name. */
  lemma AbsoluteNamesAreGs(fs: Option<FS>, defaultBucket: Result<string, Error>, fileName: string)
    requires MakeFileNameAbsolute(fs, defaultBucket, fileName).Ok?
    ensures HasPrefix(MakeFileNameAbsolute(fs, defaultBucket, fileName).value, GsPrefix)
  {
    if !HasPrefix(fileName, GsPrefix) {
      var bucket := BucketName(fs, defaultBucket).value;
      assert (GsPrefix + bucket + "/" + fileName)[..|GsPrefix|] == GsPrefix;
    }
  }

  /** Applying it to its own output changes nothing. */
  lemma MakeFileNameAbsoluteIdempotent(fs: Option<FS>, defaultBucket: Result<string, Error>, fileName: string)
    requires MakeFileNameAbsolute(fs, defaultBucket, fileName).Ok?
    ensures var once := MakeFileNameAbsolute(fs, defaultBucket, fileName).value;
      MakeFileNameAbsolute(fs, defaultBucket, once) == Ok(once)
  {
    AbsoluteNamesAreGs(fs, defaultBucket, fileName);
  }

  /** A relative name can be read back from the absolute one after "/gs/<bucket>/". */
  lemma RelativeNameRecoverable(fs: Option<FS>, defaultBucket: Result<string, Error>, fileName: string)
    requires !HasPrefix(fileName, "/") && BucketName(fs, defaultBucket).Ok?
    ensures var prefix := GsPrefix + BucketName(fs, defaultBucket).value + "/";
      TrimPrefix(MakeFileNameAbsolute(fs, defaultBucket, fileName).value, prefix) == fileName
  {
    var prefix := GsPrefix + BucketName(fs, defaultBucket).value + "/";
    assert GsPrefix + BucketName(fs, defaultBucket).value + "/" + fileName == prefix + fileName;
    TrimPrefixOfConcat(prefix, fileName);
  }
}
