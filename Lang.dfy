/** Java-level building blocks shared by the models: nullable references,
    thrown errors, the exception classes the code tests with instanceof,
    and java.lang.String.trim. */
module Lang {

  /** A Java reference that may be null. */
  datatype Option<+T> = None | Some(value: T)

  /** The unchecked exceptions the modelled code can throw at its caller. */
  datatype Thrown =
    | NullPointer
    | IllegalState(message: string)
    | StringIndexOutOfBounds
    | NegativeArraySize
    | ParseFailure

  /** The outcome of a Java call that either returns a value or throws. */
  datatype Result<+T> = Ok(value: T) | Throws(thrown: Thrown)

  /** The exception classes the library distinguishes with instanceof. */
  datatype ExceptionKind =
    | NotConnectedToNetwork  // com.zidsoft.zdlib.common.NotConnectedToNetworkException
    | Interrupted            // java.lang.InterruptedException
    | Execution              // java.util.concurrent.ExecutionException
    | Generic                // java.lang.Exception itself
    | Other                  // any other exception or error class

  /** The values of a Java `int`. */
  predicate IsInt32(x: int)
  {
    -0x8000_0000 <= x < 0x8000_0000
  }

  /** Java `int` arithmetic: the two's-complement wrap of an exact result. */
  function Int32(x: int): (r: int)
    ensures IsInt32(r)
    ensures (x - r) % 0x1_0000_0000 == 0
    ensures IsInt32(x) ==> r == x
  {
    (x + 0x8000_0000) % 0x1_0000_0000 - 0x8000_0000
  }

  /** An exact result k times 2^32 away from an `int` wraps to that `int`. */
  lemma Int32Shift(x: int, k: int)
    requires IsInt32(x + k * 0x1_0000_0000)
    ensures Int32(x) == x + k * 0x1_0000_0000
  {
    var a := x + 0x8000_0000;
    var r := x + k * 0x1_0000_0000 + 0x8000_0000;
    assert a == -k * 0x1_0000_0000 + r && 0 <= r < 0x1_0000_0000;
    assert a == (a / 0x1_0000_0000) * 0x1_0000_0000 + a % 0x1_0000_0000;
    assert (a / 0x1_0000_0000 + k) * 0x1_0000_0000 == r - a % 0x1_0000_0000;
  }

  /** A Java exception object: its class and its toString() text. */
  datatype JavaException = JavaException(kind: ExceptionKind, text: string)

  /** `new Exception(t)`: a plain Exception whose detail message is
      t.toString(), so that its own toString() carries the class name first. */
  function WrapThrowable(t: JavaException): JavaException
  {
    JavaException(Generic, "java.lang.Exception: " + t.text)
  }

  /** `new ExecutionException(cause)`, as FutureTask.get() throws it: its
      detail message is cause.toString(). */
  function ExecutionWrapper(cause: JavaException): (e: JavaException)
    ensures e.kind == Execution && e.text == "java.util.concurrent.ExecutionException: " + cause.text
  {
    JavaException(Execution, "java.util.concurrent.ExecutionException: " + cause.text)
  }

  /** The characters java.lang.String.trim strips: every code point up to
      and including the space. */
  predicate IsTrimmed(c: char)
  {
    c <= ' '
  }

  function TrimStart(s: string): string
  {
    if |s| > 0 && IsTrimmed(s[0]) then TrimStart(s[1..]) else s
  }

  function TrimEnd(s: string): string
  {
    if |s| > 0 && IsTrimmed(s[|s| - 1]) then TrimEnd(s[..|s| - 1]) else s
  }

  /** java.lang.String.trim: strip leading and trailing characters <= ' '. */
  function Trim(s: string): string
  {
    TrimEnd(TrimStart(s))
  }

  /** Every character of s is one that trim strips. */
  predicate IsBlank(s: string)
  {
    forall i :: 0 <= i < |s| ==> IsTrimmed(s[i])
  }

  lemma {:induction false} TrimStartEmptyIffBlank(s: string)
    ensures TrimStart(s) == [] <==> IsBlank(s)
    ensures TrimStart(s) != [] ==> !IsTrimmed(TrimStart(s)[0])
  {
    if |s| > 0 && IsTrimmed(s[0]) {
      TrimStartEmptyIffBlank(s[1..]);
      assert IsBlank(s) <==> IsBlank(s[1..]) by {
        if IsBlank(s[1..]) {
          forall i | 0 <= i < |s| ensures IsTrimmed(s[i]) {
            if i > 0 { assert s[i] == s[1..][i - 1]; }
          }
        }
      }
    }
  }

  lemma {:induction false} TrimEndKeepsFirst(s: string)
    requires s != [] && !IsTrimmed(s[0])
    ensures TrimEnd(s) != []
  {
    if |s| > 0 && IsTrimmed(s[|s| - 1]) {
      assert |s| > 1;
      TrimEndKeepsFirst(s[..|s| - 1]);
    }
  }

  /** `s.trim().length() == 0` holds exactly when s consists of characters trim strips. */
  lemma TrimEmptyIffBlank(s: string)
    ensures |Trim(s)| == 0 <==> IsBlank(s)
  {
    TrimStartEmptyIffBlank(s);
    if TrimStart(s) != [] {
      TrimEndKeepsFirst(TrimStart(s));
    }
  }
}
