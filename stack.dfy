/** Optional values and the `top` peek of an array used as a stack (top at the end). */
module Stack {

  datatype Option<+T> = None | Some(value: T)

  /** `top`: the last element, or nothing (JavaScript's `undefined`) for an empty stack. */
  function Top<T>(s: seq<T>): (r: Option<T>)
    ensures r.None? <==> s == []
    ensures r.Some? ==> r.value == s[|s| - 1] && r.value in s
  {
    if s == [] then None else Some(s[|s| - 1])
  }

  /** Peeking right after a push sees the pushed element. */
  lemma TopOfPush<T>(s: seq<T>, x: T)
    ensures Top(s + [x]) == Some(x)
  {
  }
}
