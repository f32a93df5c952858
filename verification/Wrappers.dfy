/** Optional values and results standing for `null`, `undefined` and thrown errors. */
module Wrappers {
  datatype Option<+T> = None | Some(value: T) {
    function GetOr(default: T): T { if Some? then value else default }
  }

  datatype Result<+T, +E> = Ok(value: T) | Err(error: E)

  /** What a plain object used as a table answers to without an entry of its own: the members of its prototype. */
  const INHERITED_NAMES: set<string> :=
    {"constructor", "hasOwnProperty", "isPrototypeOf", "propertyIsEnumerable", "toLocaleString", "toString", "valueOf",
     "__proto__", "__defineGetter__", "__defineSetter__", "__lookupGetter__", "__lookupSetter__"}

  /** All values in order, or the first error. */
  function Collect<T, E>(rs: seq<Result<T, E>>): (r: Result<seq<T>, E>)
    ensures r.Ok? ==> |r.value| == |rs|
  {
    if |rs| == 0 then Ok([])
    else
      match Collect(rs[..|rs| - 1])
      case Err(e) => Err(e)
      case Ok(init) =>
        match rs[|rs| - 1]
        case Err(e) => Err(e)
        case Ok(last) => Ok(init + [last])
  }

  lemma CollectSnoc<T, E>(rs: seq<Result<T, E>>, n: nat)
    requires n < |rs|
    ensures Collect(rs[..n + 1])
         == if Collect(rs[..n]).Err? then Collect(rs[..n])
            else if rs[n].Err? then Err(rs[n].error)
            else Ok(Collect(rs[..n]).value + [rs[n].value])
  {
    assert rs[..n + 1][..n] == rs[..n];
  }

  /** Collecting succeeds exactly when every result does, and keeps the values in order. */
  lemma {:induction false} CollectDecides<T, E>(rs: seq<Result<T, E>>)
    ensures Collect(rs).Ok? <==> forall r | r in rs :: r.Ok?
    ensures Collect(rs).Ok? ==>
      |Collect(rs).value| == |rs| && forall i | 0 <= i < |rs| :: rs[i] == Ok(Collect(rs).value[i])
  {
    if |rs| > 0 {
      CollectDecides(rs[..|rs| - 1]);
      assert rs == rs[..|rs| - 1] + [rs[|rs| - 1]];
    }
  }

  /** A property of every result by position is one of every collected value. */
  lemma CollectKeeps<T, E>(rs: seq<Result<T, E>>, p: (nat, T) -> bool)
    requires forall i: nat | i < |rs| :: rs[i].Ok? && p(i, rs[i].value)
    ensures Collect(rs).Ok? && |Collect(rs).value| == |rs|
    ensures forall i: nat | i < |rs| :: p(i, Collect(rs).value[i])
  {
    CollectDecides(rs);
  }

  lemma {:induction false} CollectError<T, E>(rs: seq<Result<T, E>>)
    ensures Collect(rs).Err? ==> exists i | 0 <= i < |rs| :: rs[i] == Err(Collect(rs).error)
  {
    if |rs| > 0 && Collect(rs).Err? {
      CollectError(rs[..|rs| - 1]);
      assert rs[|rs| - 1].Err? || Collect(rs[..|rs| - 1]).Err?;
    }
  }

  lemma {:induction false} CollectStops<T, E>(rs: seq<Result<T, E>>, n: nat)
    requires n <= |rs| && Collect(rs[..n]).Err?
    ensures Collect(rs) == Collect(rs[..n])
    decreases |rs|
  {
    if n < |rs| {
      assert rs[..|rs| - 1][..n] == rs[..n];
      CollectStops(rs[..|rs| - 1], n);
    } else {
      assert rs[..n] == rs;
    }
  }

  lemma {:induction false} SubsetSize<T>(a: set<T>, b: set<T>)
    requires a <= b
    ensures |a| <= |b|
  {
    if a != {} {
      var x :| x in a;
      SubsetSize(a - {x}, b - {x});
    }
  }
}
