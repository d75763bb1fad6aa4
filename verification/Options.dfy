/** Optional values (Go's nil pointers), lookups with a default, and parts of sequences. */
module Options {
  datatype Option<+T> = None | Some(value: T)

  function Lookup<K, V>(m: map<K, V>, k: K, absent: V): V {
    if k in m then m[k] else absent
  }

  function LastN<T>(s: seq<T>, n: nat): (r: seq<T>)
    ensures |r| == if |s| > n then n else |s|
  {
    if |s| > n then s[|s| - n..] else s
  }

  function Filtered<M>(ms: seq<M>, keep: M -> bool): seq<M> {
    if ms == [] then []
    else
      var rest := Filtered(ms[1..], keep);
      if keep(ms[0]) then [ms[0]] + rest else rest
  }
}
