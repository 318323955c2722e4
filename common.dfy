/** Small generic pieces: the optional value used for Python's `None`-or-value
    fields and lookups, and the slice `s[-n:]`. */
module Common {

  datatype Option<T> = None | Some(value: T) {

    function GetOr(default: T): T
    {
      if Some? then value else default
    }
  }

  /** A non-empty sequence is its front followed by its last element. */
  lemma SplitLast<T>(s: seq<T>)
    requires s != []
    ensures s == s[..|s| - 1] + [s[|s| - 1]]
  {
  }

  /** Python's `s[-n:]` for n > 0: the last n elements. (Python reads `s[-0:]`
      as the whole list; every caller passes a positive constant.) */
  function KeepLast<T>(s: seq<T>, n: nat): (r: seq<T>)
    ensures |r| == if |s| <= n then |s| else n
    ensures r == s[|s| - |r|..]
  {
    if |s| <= n then s else s[|s| - n..]
  }
}
