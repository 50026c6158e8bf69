/** Option and Result values used in place of Python's `None` and raised exceptions, and list comprehensions over them. */
module Outcomes {

  datatype Option<+T> = None | Some(value: T)
  {
    /** The wrapped value, or `default` for `None` (Python's `x or default`). */
    function GetOr(default: T): T
    {
      match this
      case Some(v) => v
      case None => default
    }
  }

  /** The exceptions the modelled code can let escape. */
  datatype Failure =
    | NoRoleAvailable        // `next(iter(roles_map.keys()))` on an empty registry raises StopIteration
    | NoEducationMatch       // `edu_match.group(1)` on `None` raises AttributeError

  datatype Result<+T> = Ok(value: T) | Err(error: Failure)

  /** `[f(x) for x in xs]`. */
  function Map<A, B>(f: A -> B, xs: seq<A>): (r: seq<B>)
    ensures |r| == |xs|
    ensures forall i :: 0 <= i < |xs| ==> r[i] == f(xs[i])
  {
    seq(|xs|, i requires 0 <= i < |xs| => f(xs[i]))
  }

  lemma MapAppend<A, B>(f: A -> B, a: seq<A>, b: seq<A>)
    ensures Map(f, a + b) == Map(f, a) + Map(f, b)
  {
    assert forall i :: 0 <= i < |a| ==> (a + b)[i] == a[i];
    assert forall i :: |a| <= i < |a| + |b| ==> (a + b)[i] == b[i - |a|];
  }

  /** The values of the `Some` entries, in order: a list comprehension with a filter. */
  function Somes<T>(os: seq<Option<T>>): (r: seq<T>)
    ensures |r| <= |os|
    ensures forall k :: 0 <= k < |r| ==> Some(r[k]) in os
  {
    if os == [] then []
    else
      var rest := Somes(os[1..]);
      assert forall k :: 0 <= k < |rest| ==> Some(rest[k]) in os by {
        forall k | 0 <= k < |rest|
          ensures Some(rest[k]) in os
        {
          var i :| 0 <= i < |os[1..]| && os[1..][i] == Some(rest[k]);
          assert os[i + 1] == Some(rest[k]);
        }
      }
      match os[0]
      case Some(v) => [v] + rest
      case None => rest
  }

  lemma AppendAssoc<T>(a: seq<T>, b: seq<T>, c: seq<T>)
    ensures a + (b + c) == (a + b) + c
  {
  }

  /** Filtering works piecewise, so it keeps the input order. */
  lemma {:induction false} SomesAppend<T>(a: seq<Option<T>>, b: seq<Option<T>>)
    ensures Somes(a + b) == Somes(a) + Somes(b)
    decreases |a|
  {
    if a == [] {
      assert a + b == b;
    } else {
      SomesAppend(a[1..], b);
      assert (a + b)[0] == a[0];
      assert (a + b)[1..] == a[1..] + b;
    }
  }

  /** When every entry is a `Some`, nothing is dropped. */
  lemma {:induction false} SomesAll<T>(os: seq<Option<T>>)
    requires forall i :: 0 <= i < |os| ==> os[i].Some?
    ensures |Somes(os)| == |os|
    ensures forall i :: 0 <= i < |os| ==> Somes(os)[i] == os[i].value
    decreases |os|
  {
    if os != [] {
      SomesAll(os[1..]);
    }
  }

  /** When every entry is `None`, nothing is kept. */
  lemma {:induction false} SomesNone<T>(os: seq<Option<T>>)
    requires forall i :: 0 <= i < |os| ==> os[i].None?
    ensures Somes(os) == []
    decreases |os|
  {
    if os != [] {
      SomesNone(os[1..]);
    }
  }

  /** The first `Some` of the list: a `for` loop that breaks on the first hit. */
  function FirstSome<T>(os: seq<Option<T>>): (r: Option<T>)
    ensures r.None? <==> forall i :: 0 <= i < |os| ==> os[i].None?
    ensures r.Some? ==> exists i :: 0 <= i < |os| && os[i] == r && (forall j :: 0 <= j < i ==> os[j].None?)
    decreases |os|
  {
    if os == [] then None
    else if os[0].Some? then os[0]
    else
      var r := FirstSome(os[1..]);
      assert forall i :: 1 <= i < |os| ==> os[i] == os[1..][i - 1];
      if r.Some? then
        assert exists i :: 0 <= i < |os| && os[i] == r && (forall j :: 0 <= j < i ==> os[j].None?) by {
          var i :| 0 <= i < |os[1..]| && os[1..][i] == r && (forall j :: 0 <= j < i ==> os[1..][j].None?);
          assert os[i + 1] == r;
        }
        r
      else r
  }

  /** Every `Some` value of the list is kept. */
  lemma {:induction false} SomesHas<T>(os: seq<Option<T>>, x: T)
    requires Some(x) in os
    ensures x in Somes(os)
    decreases |os|
  {
    if os[0] != Some(x) {
      assert Some(x) in os[1..];
      SomesHas(os[1..], x);
    }
  }

  /** The lists one after the other: nested `for` loops appending to one list. */
  function Flatten<T>(xss: seq<seq<T>>): (r: seq<T>)
    ensures forall x :: x in r ==> exists i :: 0 <= i < |xss| && x in xss[i]
    decreases |xss|
  {
    if xss == [] then []
    else
      var rest := Flatten(xss[1..]);
      assert forall x :: x in rest ==> exists i :: 0 <= i < |xss| && x in xss[i] by {
        forall x | x in rest
          ensures exists i :: 0 <= i < |xss| && x in xss[i]
        {
          var i :| 0 <= i < |xss[1..]| && x in xss[1..][i];
          assert xss[i + 1] == xss[1..][i];
        }
      }
      xss[0] + rest
  }

  lemma {:induction false} FlattenAppend<T>(a: seq<seq<T>>, b: seq<seq<T>>)
    ensures Flatten(a + b) == Flatten(a) + Flatten(b)
    decreases |a|
  {
    if a == [] {
      assert a + b == b;
    } else {
      assert (a + b)[1..] == a[1..] + b;
      assert (a + b)[0] == a[0];
      FlattenAppend(a[1..], b);
    }
  }

  /** Every element of every list is in the flattening. */
  lemma {:induction false} FlattenHas<T>(xss: seq<seq<T>>, i: nat, x: T)
    requires i < |xss| && x in xss[i]
    ensures x in Flatten(xss)
    decreases i
  {
    if i > 0 {
      assert xss[1..][i - 1] == xss[i];
      FlattenHas(xss[1..], i - 1, x);
    }
  }
}
