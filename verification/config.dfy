/**
 * config.go: newConfig turns the command-line arguments into the deploy
 * configuration (source directory, archive prefix, dashboard stack and
 * environment, S3 bucket and key), stopping at the first check that fails.
 */
module Config {
  import opened Wrappers
  import opened Paths

  /** The parts of a parsed url.URL that are read. */
  datatype Url = Url(scheme: string, host: string, path: string)

  /** The configuration newConfig builds (the bucket's region is looked up remotely and not part of it). */
  datatype Config = Config(
    src: string, tarPrefix: string,
    stack: string, env: string,
    dashboard: Url, user: string, token: string,
    bucket: string, key: string)

  const SchemeError := "S3Uri argument does not have valid protocol, should be 's3'"
  const BucketError := "S3Uri is missing bucket name"

  /** The usage message reported when the dashboard path has the wrong shape. */
  function UsageError(program: string): string
  {
    "usage: " + program + " path/to/src/directory s3://bucket/destination/file.tar.gz http://platform/ \n"
  }

  /** The dashboard URL path without its enclosing '/', split on '/'. */
  function PathSegments(p: string): seq<string>
  {
    Split(Trim(p, Separator), Separator)
  }

  /**
   * newConfig, given what filepath.Abs returned for the source argument,
   * what url.Parse returned for the dashboard and S3 arguments, and the two
   * environment variables. The checks run in order (absolute path,
   * dashboard URL, dashboard path shape, S3 URI, its scheme, its host) and
   * the first failure is the error; handleError does not return.
   */
  function NewConfig(program: string, absSrc: Result<string>, dashboard: Result<Url>,
                     user: string, token: string, s3: Result<Url>): (r: Result<Config>)
    ensures absSrc.Err? ==> r == Err(absSrc.error)
    ensures absSrc.Ok? && dashboard.Err? ==> r == Err(dashboard.error)
    ensures absSrc.Ok? && dashboard.Ok? && |PathSegments(dashboard.value.path)| != 5 ==>
              r == Err(UsageError(program))
    ensures absSrc.Ok? && dashboard.Ok? && |PathSegments(dashboard.value.path)| == 5 ==>
              && (s3.Err? ==> r == Err(s3.error))
              && (s3.Ok? && s3.value.scheme != "s3" ==> r == Err(SchemeError))
              && (s3.Ok? && s3.value.scheme == "s3" && s3.value.host == "" ==> r == Err(BucketError))
    ensures r.Ok? <==> && absSrc.Ok? && dashboard.Ok? && |PathSegments(dashboard.value.path)| == 5
                       && s3.Ok? && s3.value.scheme == "s3" && s3.value.host != ""
    ensures r.Ok? ==>
              && r.value.src == absSrc.value
              && r.value.tarPrefix == Base(absSrc.value)
              && r.value.stack == PathSegments(dashboard.value.path)[2]
              && r.value.env == PathSegments(dashboard.value.path)[4]
              && r.value.dashboard == dashboard.value
              && r.value.user == user && r.value.token == token
              && r.value.bucket == s3.value.host
              && r.value.key == s3.value.path
  {
    match absSrc
    case Err(e) => Err(e)
    case Ok(src) =>
      var tarPrefix := Base(src);
      match dashboard
      case Err(e) => Err(e)
      case Ok(dash) =>
        var pathParts := PathSegments(dash.path);
        if |pathParts| != 5 then Err(UsageError(program))
        else
          var stack, env := pathParts[2], pathParts[4];
          match s3
          case Err(e) => Err(e)
          case Ok(s3URL) =>
            if s3URL.scheme != "s3" then Err(SchemeError)
            else if s3URL.host == "" then Err(BucketError)
            else Ok(Config(src, tarPrefix, stack, env, dash, user, token, s3URL.host, s3URL.path))
  }

  /**
   * A dashboard path made of five plain segments, with or without a
   * trailing '/', gives back those five segments, so the stack is the third
   * and the environment the fifth.
   */
  lemma DashboardSegments(segs: seq<string>, trailing: bool)
    requires |segs| == 5
    requires forall i :: 0 <= i < 5 ==> PlainName(segs[i])
    ensures var p := [Separator] + JoinWith(segs, Separator) + (if trailing then [Separator] else []);
            PathSegments(p) == segs
  {
    var s := JoinWith(segs, Separator);
    JoinPlainEnds(segs);
    EnclosedTrim(s, segs[0], segs[4], trailing);
    SplitJoin(segs, Separator);
  }

  /** Trimming '/' around a joined path whose first and last segments are plain gives the joined path back. */
  lemma EnclosedTrim(s: string, first: string, last: string, trailing: bool)
    requires PlainName(first) && PlainName(last)
    requires s != [] && s[0] == first[0] && s[|s| - 1] == last[|last| - 1]
    ensures Trim([Separator] + s + (if trailing then [Separator] else []), Separator) == s
  {
    assert first[0] in first && last[|last| - 1] in last;
    TrimEnclosed(s, Separator);
    if !trailing {
      assert [Separator] + s + [] == [Separator] + s;
    }
  }

  /**
   * With a well-formed dashboard URL and S3 URI, the configuration names the
   * stack and environment from the dashboard path, the bucket and key from
   * the S3 URI, and the last element of the source path as archive prefix.
   */
  lemma NewConfigExample(program: string, dirs: seq<string>, segs: seq<string>, scheme: string, host: string,
                         user: string, token: string, bucket: string, key: string)
    requires |dirs| >= 1 && forall i :: 0 <= i < |dirs| ==> PlainName(dirs[i])
    requires |segs| == 5 && forall i :: 0 <= i < 5 ==> PlainName(segs[i])
    requires bucket != ""
    ensures var src := [Separator] + JoinWith(dirs, Separator);
            var r := NewConfig(program, Ok(src), Ok(Url(scheme, host, [Separator] + JoinWith(segs, Separator))),
                               user, token, Ok(Url("s3", bucket, key)));
            && r.Ok?
            && r.value.tarPrefix == dirs[|dirs| - 1]
            && r.value.stack == segs[2] && r.value.env == segs[4]
            && r.value.bucket == bucket && r.value.key == key
  {
    DashboardSegments(segs, false);
    assert [Separator] + JoinWith(segs, Separator) + [] == [Separator] + JoinWith(segs, Separator);
    BaseOfAbsolute(dirs);
  }

  /** The dashboard client's base URL: scheme, "://" and host; the path is dropped. */
  function DashboardBaseURL(u: Url): (r: string)
    ensures |r| == |u.scheme| + 3 + |u.host|
    ensures r[..|u.scheme|] == u.scheme && r[|u.scheme|..|u.scheme| + 3] == "://" && r[|u.scheme| + 3..] == u.host
  {
    u.scheme + "://" + u.host
  }

  /**
   * For schemes without ':' the base URL determines scheme and host: two
   * dashboard URLs with the same base URL differ at most in their paths.
   */
  lemma DashboardBaseURLInjective(u: Url, v: Url)
    requires ':' !in u.scheme && ':' !in v.scheme
    requires DashboardBaseURL(u) == DashboardBaseURL(v)
    ensures u.scheme == v.scheme && u.host == v.host
  {
    var r := DashboardBaseURL(u);
    assert r[|u.scheme|] == ':' && r[|v.scheme|] == ':';
  }
}
