/** What several models share. */
module Common {

  type byte = x: int | 0 <= x < 256

  datatype Option<T> = None | Some(value: T)

  function Min(a: int, b: int): int { if a < b then a else b }

  function Max(a: int, b: int): int { if a < b then b else a }

  /** f with k mapped to v. */
  function Put<K(==), V>(f: K -> V, k: K, v: V): K -> V { x => if x == k then v else f(x) }
}
