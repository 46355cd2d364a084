/** util.py: `chomp`, and `list_ret`, which drains a generator and keeps its return value. */
module Util {
  import opened Text

  /** `chomp(s)`: remove one trailing newline, if there is one. */
  function Chomp(s: string): (r: string)
    ensures |s| - 1 <= |r| <= |s| && r == s[..|r|]
    ensures EndsWith(s, "\n") ==> r + "\n" == s
    ensures !EndsWith(s, "\n") ==> r == s
  {
    if EndsWith(s, "\n") then s[..|s| - 1] else s
  }

  /** `chomp` undoes appending a newline. */
  lemma ChompAppendedNewline(s: string)
    ensures Chomp(s + "\n") == s
  {
    assert EndsWith(s + "\n", "\n");
  }

  /** One call of `next(g)`: a yielded value, or the `StopIteration` carrying the generator's return value. */
  datatype Step<T, R> = Yielded(item: T) | Stopped(value: R)

  /** A Python generator: the values it will yield, in order, then the value it returns. */
  class Generator<T, R> {
    const items: seq<T>
    const result: R
    var pos: nat

    ghost predicate Valid()
      reads this
    {
      pos <= |items|
    }

    constructor (items: seq<T>, result: R)
      ensures Valid() && this.items == items && this.result == result && pos == 0
    {
      this.items := items;
      this.result := result;
      pos := 0;
    }

    /** `next(g)`. */
    method Next() returns (s: Step<T, R>)
      requires Valid()
      modifies this`pos
      ensures Valid()
      ensures old(pos) < |items| ==> s == Yielded(items[old(pos)]) && pos == old(pos) + 1
      ensures old(pos) == |items| ==> s == Stopped(result) && pos == old(pos)
    {
      if pos < |items| {
        s := Yielded(items[pos]);
        pos := pos + 1;
      } else {
        s := Stopped(result);
      }
    }
  }

  /**
   * `list_ret(g)`: every value `g` still yields, in yield order, together with the value its
   * `StopIteration` carries.
   */
  method ListRet<T, R>(g: Generator<T, R>) returns (L: seq<T>, value: R)
    requires g.Valid()
    modifies g
    ensures g.Valid() && g.pos == |g.items|
    ensures L == old(g.items[g.pos..]) && |L| == |g.items| - old(g.pos)
    ensures value == g.result
  {
    L := [];
    while true
      invariant g.Valid() && old(g.pos) <= g.pos
      invariant L == g.items[old(g.pos)..g.pos]
      decreases |g.items| - g.pos
    {
      var s := g.Next();
      match s
      case Yielded(x) =>
        L := L + [x];
      case Stopped(v) =>
        return L, v;
    }
  }
}
