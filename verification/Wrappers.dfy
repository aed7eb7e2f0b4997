// Small types and functions shared by the whole project.
module Wrappers {
  datatype Option<+T> = None | Some(value: T)

  datatype Result<+T, +E> = Ok(value: T) | Err(error: E)

  function Min(a: int, b: int): int {
    if a <= b then a else b
  }

  // A text without its final slash, if it has one.
  function TrimSlash(s: string): string {
    if s != "" && s[|s| - 1] == '/' then s[..|s| - 1] else s
  }

  // Two texts agree without a final slash exactly when they are equal or one of them is the
  // other, which has no final slash, with a slash after it.
  lemma TrimSlashExactly(a: string, b: string)
    ensures TrimSlash(a + "/") == a
    ensures !(exists c :: a == c + "/") ==> TrimSlash(a) == a
    ensures TrimSlash(a) == TrimSlash(b) <==>
            || a == b
            || (a == b + "/" && !(exists c :: b == c + "/"))
            || (b == a + "/" && !(exists c :: a == c + "/"))
  {
    EndsInSlash(a);
    EndsInSlash(b);
  }

  lemma EndsInSlash(s: string)
    ensures (exists c :: s == c + "/") <==> s != "" && s[|s| - 1] == '/'
    ensures s != "" && s[|s| - 1] == '/' ==> s == TrimSlash(s) + "/"
  {
    if s != "" && s[|s| - 1] == '/' {
      assert s == s[..|s| - 1] + "/";
    }
  }

  function Max(a: int, b: int): int {
    if a <= b then b else a
  }
}
