/** Small vocabulary shared by the protocol models: options, least and greatest, map updates, and what texts
    joined by a separator tell about their parts. */
module Prelude {

  datatype Option<+T> = None | Some(value: T)

  function Min(a: int, b: int): (m: int)
    ensures m <= a && m <= b && (m == a || m == b)
  {
    if a <= b then a else b
  }

  function Max(a: int, b: int): (m: int)
    ensures a <= m && b <= m && (m == a || m == b)
  {
    if a <= b then b else a
  }

  lemma OverwriteKey<K, V>(m: map<K, V>, k: K, v: V, w: V)
    ensures m[k := v][k := w] == m[k := w]
  {
  }

  // ----- texts joined by a separator

  /** The second head continues the first one past a separator, and the first tail makes up for it. */
  predicate Spills<T(==)>(head: seq<T>, tail: seq<T>, head': seq<T>, tail': seq<T>, sep: seq<T>) {
    head + sep <= head' && tail == head'[|head + sep|..] + sep + tail'
  }

  lemma EqualHeads<T>(head: seq<T>, tail: seq<T>, head': seq<T>, tail': seq<T>, sep: seq<T>)
    requires |head| == |head'|
    ensures head + sep + tail == head' + sep + tail' <==> head == head' && tail == tail'
  {
    var v, v' := head + sep + tail, head' + sep + tail';
    assert v[..|head|] == head && v'[..|head|] == head';
    assert v[|head + sep|..] == tail && v'[|head + sep|..] == tail';
  }

  lemma SeparatorPlace<T>(head: seq<T>, tail: seq<T>, sep: seq<T>)
    ensures forall i :: |head| <= i < |head + sep| ==> (head + sep + tail)[i] == sep[i - |head|]
  {
  }

  // The separator's first element occurs nowhere else in it, so that it cannot overlap itself.
  lemma LongerHead<T>(head: seq<T>, tail: seq<T>, head': seq<T>, tail': seq<T>, sep: seq<T>)
    requires sep != [] && (forall i :: 0 < i < |sep| ==> sep[i] != sep[0]) && |head| < |head'|
    ensures head + sep + tail == head' + sep + tail' <==> Spills(head, tail, head', tail', sep)
  {
    var v, v' := head + sep + tail, head' + sep + tail';
    if Spills(head, tail, head', tail', sep) {
      assert head' == head + sep + head'[|head + sep|..];
      assert v == v';
    }
    if v == v' {
      assert v'[|head'|] == sep[0];
      SeparatorPlace(head, tail, sep);
      assert v[..|head + sep|] == head + sep;
      assert v[|head + sep|..] == tail && v'[|head + sep|..] == head'[|head + sep|..] + sep + tail';
    }
  }

  /** What two parts joined by a separator tell about the parts: everything, unless one head holds the
      separator where the other one ends. */
  lemma JoinedTextsAgree<T>(head: seq<T>, tail: seq<T>, head': seq<T>, tail': seq<T>, sep: seq<T>)
    requires sep != [] && forall i :: 0 < i < |sep| ==> sep[i] != sep[0]
    ensures head + sep + tail == head' + sep + tail'
      <==> (head == head' && tail == tail') || Spills(head, tail, head', tail', sep) || Spills(head', tail', head, tail, sep)
  {
    if |head| == |head'| {
      EqualHeads(head, tail, head', tail', sep);
    } else if |head| < |head'| {
      LongerHead(head, tail, head', tail', sep);
    } else {
      LongerHead(head', tail', head, tail, sep);
    }
  }
}
