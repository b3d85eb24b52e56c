/** The parts of the Python runtime that the pipeline's behaviour depends on:
    the exception classes its handlers name (with their subclass relation),
    normal versus exceptional completion of a call, and os.path.basename. */
module Runtime {

  /** The exception classes raised or caught by the pipeline. */
  datatype Exception =
    | TypeError
    | ValueError
    | JSONDecodeError        // json.JSONDecodeError, a subclass of ValueError
    | KeyError
    | UnboundLocalError
    | AttributeError
    | IOError                // OSError
    | FileNotFoundError      // a subclass of OSError
    | URLError               // urllib.error.URLError, a subclass of OSError
    | ContentTooShortError   // a subclass of URLError
    | GoogleCloudError       // google.api_core.exceptions.GoogleAPICallError
    | NotFound               // a subclass of GoogleCloudError
    | Conflict               // a subclass of GoogleCloudError

  /** `e` is an instance of class `c`: an `except c` clause catches it. */
  predicate IsA(e: Exception, c: Exception): (r: bool)
    ensures e == c ==> r
    ensures (r && c in {TypeError, KeyError, UnboundLocalError, AttributeError, JSONDecodeError,
                        FileNotFoundError, ContentTooShortError, NotFound, Conflict}) ==> e == c
    ensures r && e in {TypeError, KeyError, UnboundLocalError, AttributeError} ==> e == c
  {
    e == c
    || (c == ValueError && e == JSONDecodeError)
    || (c == IOError && e in {FileNotFoundError, URLError, ContentTooShortError})
    || (c == URLError && e == ContentTooShortError)
    || (c == GoogleCloudError && e in {NotFound, Conflict})
  }

  /** An `except (c1, c2, ...)` clause listing `handler` catches `e`. */
  predicate Catches(handler: set<Exception>, e: Exception): (r: bool)
    ensures e in handler ==> r
    ensures handler == {} ==> !r
  {
    exists c :: c in handler && IsA(e, c)
  }

  /** How a call without a result completes: normally, or by raising. */
  datatype Outcome = Normal | Raised(error: Exception)

  /** How a call with a result completes. */
  datatype Result<T> = Success(value: T) | Failure(error: Exception)
  {
    function ToOutcome(): Outcome
    {
      if Success? then Normal else Raised(error)
    }
  }

  datatype Option<T> = None | Some(value: T)
  {
    function GetOr(default: T): T
    {
      if Some? then value else default
    }
  }

  /** os.path.basename on a POSIX path: everything after the last '/'. */
  function Basename(p: string): (r: string)
    ensures |r| <= |p| && r == p[|p| - |r|..]
    ensures '/' !in r
  {
    if p == [] then []
    else if p[|p| - 1] == '/' then []
    else Basename(p[..|p| - 1]) + [p[|p| - 1]]
  }

  /** The basename is the whole last component: the path has no '/' before it,
      or a '/' right before it. */
  lemma {:induction false} BasenameIsLastComponent(p: string)
    ensures |Basename(p)| == |p| || p[|p| - |Basename(p)| - 1] == '/'
  {
    if p != [] && p[|p| - 1] != '/' {
      BasenameIsLastComponent(p[..|p| - 1]);
    }
  }

  /** A file name without '/' placed in a directory (empty, or ending in '/')
      is its own basename. */
  lemma {:induction false} BasenameInDirectory(dir: string, name: string)
    requires dir == [] || dir[|dir| - 1] == '/'
    requires '/' !in name
    ensures Basename(dir + name) == name
  {
    if name == [] {
      assert dir + name == dir;
    } else {
      var front := name[..|name| - 1];
      BasenameInDirectory(dir, front);
      assert (dir + name)[..|dir + name| - 1] == dir + front;
      assert name == front + [name[|name| - 1]];
    }
  }
}
