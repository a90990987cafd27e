/** What several components share. */
module Common {

  datatype Option<+T> = None | Some(value: T)

  /** The part of a path after its last separator. */
  function Basename(path: string): string {
    if '/' in path then Basename(path[1..]) else path
  }

  lemma Assoc<T>(a: seq<T>, b: seq<T>, c: seq<T>)
    ensures a + b + c == a + (b + c)
  {
  }

  lemma Regroup<T>(a: seq<T>, x: T, b: seq<T>)
    ensures a + ([x] + b) == a + [x] + b
  {
  }
}
