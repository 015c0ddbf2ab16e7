/** Optional values and linked lists, shared by the models. */
module Lists {

  datatype Option<+T> = None | Some(value: T)

  datatype List<+T> = Nil | Cons(head: T, tail: List<T>)

  function Nth<T>(xs: List<T>, k: nat): Option<T> {
    if xs.Nil? then None else if k == 0 then Some(xs.head) else Nth(xs.tail, k - 1)
  }

  function Length<T>(xs: List<T>): nat {
    if xs.Nil? then 0 else 1 + Length(xs.tail)
  }

  /** Elements already got, in front of what is still to come, if it comes. */
  function Joined<T>(got: seq<T>, more: Option<seq<T>>): (r: Option<seq<T>>)
    ensures got == [] ==> r == more
  {
    if more.None? then None else assert got == [] ==> got + more.value == more.value; Some(got + more.value)
  }

  lemma Assoc<T>(a: seq<T>, b: seq<T>, c: seq<T>)
    ensures a + b + c == a + (b + c)
  {
  }
}
