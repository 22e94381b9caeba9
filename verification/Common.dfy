/** Result types and status codes shared by every module. */
module Common {
  datatype Option<+T> = None | Some(value: T)

  /** The gRPC status codes that the modelled code returns or passes on. */
  datatype Code = OK | Unknown | InvalidArgument | NotFound | PermissionDenied | Aborted | Internal | Unavailable

  datatype Result<+T> = Success(value: T) | Failure(code: Code)

  /** Cuts a string at every occurrence of a separator. */
  function Split(s: string, separator: char): (parts: seq<string>)
    ensures |parts| >= 1
    ensures separator in s ==> |parts| >= 2
  {
    if s == [] then [""]
    else
      assert s == [s[0]] + s[1..];
      var rest := Split(s[1..], separator);
      if s[0] == separator then [""] + rest else [[s[0]] + rest[0]] + rest[1..]
  }

  lemma {:induction false} SplitAtFirst(a: string, separator: char, b: string)
    requires separator !in a
    ensures Split(a + [separator] + b, separator) == [a] + Split(b, separator)
  {
    var s := a + [separator] + b;
    if a == [] {
      assert s[1..] == b;
    } else {
      SplitAtFirst(a[1..], separator, b);
      assert s[1..] == a[1..] + [separator] + b;
      assert [a[0]] + a[1..] == a;
    }
  }

  lemma {:induction false} SplitWithout(a: string, separator: char)
    ensures |Split(a, separator)| == 1 <==> separator !in a
    ensures separator !in a ==> Split(a, separator) == [a]
  {
    if a != [] {
      SplitWithout(a[1..], separator);
      assert [a[0]] + a[1..] == a;
    }
  }
}
