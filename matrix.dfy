/** The full crosspoint query: GetMatrix reads the status of every
    destination and files each destination under the source it shows. The
    per-destination query (GetCommand and Convert.ToInt32 on its value) is a
    parameter: reply(d) is the number the device reports for destination d,
    or None where the conversion throws. */
module Matrix {
  import opened Strings
  import opened Records
  import opened Classifier

  /** The destinations among 1..n whose status shows source s, ascending. */
  function FeedersUpTo(s: int, n: int, reply: int -> Option<int>): seq<int>
    decreases if n > 0 then n else 0
  {
    if n <= 0 then [] else FeedersUpTo(s, n - 1, reply) + (if reply(n) == Some(s) then [n] else [])
  }

  /** A destination's status cannot be converted, or names a source above the
      port count (the dictionary lookup throws). */
  predicate Unfileable(numberOfPorts: int, reply: int -> Option<int>, d: int)
  {
    reply(d).None? || reply(d).value > numberOfPorts
  }

  /** Number of keys the first loop creates. */
  function PortCount(numberOfPorts: int): nat
  {
    if numberOfPorts > 0 then numberOfPorts else 0
  }

  /** What GetMatrix returns: None when some destination's status is
      unfileable (the exception leaves the call); otherwise one entry per
      source 1..numberOfPorts, in that order, listing the destinations showing
      it. Destinations showing 0 or less are skipped. */
  function MatrixOf(numberOfPorts: int, reply: int -> Option<int>): Option<SourceMap>
  {
    if exists d :: 1 <= d <= numberOfPorts && Unfileable(numberOfPorts, reply, d) then None
    else Some(seq(PortCount(numberOfPorts), k => Entry(k + 1, FeedersUpTo(k + 1, numberOfPorts, reply))))
  }

  /** GetMatrix: create the keys 1..NumberOfPorts, then query each destination
      and add it to the list of the source it shows. */
  method GetMatrix(numberOfPorts: int, reply: int -> Option<int>) returns (r: Option<SourceMap>)
    ensures r == MatrixOf(numberOfPorts, reply)
  {
    var dic: SourceMap := [];
    var i := 1;
    while i <= numberOfPorts
      invariant 1 <= i <= PortCount(numberOfPorts) + 1
      invariant |dic| == i - 1
      invariant forall k :: 0 <= k < |dic| ==> dic[k] == Entry(k + 1, [])
    {
      dic := dic + [Entry(i, [])];
      i := i + 1;
    }
    i := 1;
    while i <= numberOfPorts
      invariant 1 <= i <= PortCount(numberOfPorts) + 1
      invariant |dic| == PortCount(numberOfPorts)
      invariant FiledUpTo(dic, i - 1, reply)
      invariant forall d :: 1 <= d < i ==> !Unfileable(numberOfPorts, reply, d)
    {
      var idx := reply(i);
      if idx.None? {
        assert Unfileable(numberOfPorts, reply, i);
        return None;
      }
      if idx.value <= 0 {
        SkipStep(dic, i, reply);
        i := i + 1;
        continue;
      }
      FindSourceOfKeys(dic, idx.value);
      var j := FindSource(dic, idx.value);
      if j.None? {
        assert Unfileable(numberOfPorts, reply, i);
        return None;
      }
      FileStep(dic, i, reply);
      dic := dic[j.value := Entry(idx.value, dic[j.value].dests + [i])];
      i := i + 1;
    }
    assert dic == seq(PortCount(numberOfPorts), k => Entry(k + 1, FeedersUpTo(k + 1, numberOfPorts, reply)));
    r := Some(dic);
  }

  /** The map holds the keys 1..|dic| in order, each listing the destinations
      among 1..n whose status shows it. */
  predicate FiledUpTo(dic: SourceMap, n: int, reply: int -> Option<int>)
  {
    forall k :: 0 <= k < |dic| ==> dic[k] == Entry(k + 1, FeedersUpTo(k + 1, n, reply))
  }

  /** A destination showing 0 or less is filed under no key. */
  lemma SkipStep(dic: SourceMap, i: int, reply: int -> Option<int>)
    requires 1 <= i && FiledUpTo(dic, i - 1, reply)
    requires reply(i).Some? && reply(i).value <= 0
    ensures FiledUpTo(dic, i, reply)
  {
    forall k | 0 <= k < |dic|
      ensures dic[k] == Entry(k + 1, FeedersUpTo(k + 1, i, reply))
    {
      assert FeedersUpTo(k + 1, i, reply) == FeedersUpTo(k + 1, i - 1, reply) + [];
    }
  }

  /** A destination showing source s among the keys joins the end of s's list
      and of no other. */
  lemma FileStep(dic: SourceMap, i: int, reply: int -> Option<int>)
    requires 1 <= i && FiledUpTo(dic, i - 1, reply)
    requires reply(i).Some? && 1 <= reply(i).value <= |dic|
    ensures var s := reply(i).value;
            FiledUpTo(dic[s - 1 := Entry(s, dic[s - 1].dests + [i])], i, reply)
  {
    var s := reply(i).value;
    var next := dic[s - 1 := Entry(s, dic[s - 1].dests + [i])];
    forall k | 0 <= k < |next|
      ensures next[k] == Entry(k + 1, FeedersUpTo(k + 1, i, reply))
    {
      if k == s - 1 {
        assert FeedersUpTo(k + 1, i, reply) == FeedersUpTo(k + 1, i - 1, reply) + [i];
      } else {
        assert FeedersUpTo(k + 1, i, reply) == FeedersUpTo(k + 1, i - 1, reply) + [];
      }
    }
  }

  /** In a map whose keys are 1..|m| in order, the entry of key s sits at s - 1. */
  lemma FindSourceOfKeys(m: SourceMap, s: int)
    requires forall k :: 0 <= k < |m| ==> m[k].source == k + 1
    ensures FindSource(m, s) == if 1 <= s <= |m| then Some(s - 1) else None
  {
    if 1 <= s <= |m| {
      assert m[s - 1].source == s;
    }
  }

  /** Destination d is in the list of source s exactly when it is among 1..n
      and its status shows s. */
  lemma {:induction false} FeedersUpToMembers(s: int, n: int, reply: int -> Option<int>)
    ensures forall d :: d in FeedersUpTo(s, n, reply) <==> 1 <= d <= n && reply(d) == Some(s)
    decreases if n > 0 then n else 0
  {
    if n > 0 {
      FeedersUpToMembers(s, n - 1, reply);
    }
  }

  /** Each list is strictly increasing: destinations are added in query order. */
  lemma {:induction false} FeedersUpToIncreasing(s: int, n: int, reply: int -> Option<int>)
    ensures forall a, b :: 0 <= a < b < |FeedersUpTo(s, n, reply)| ==> FeedersUpTo(s, n, reply)[a] < FeedersUpTo(s, n, reply)[b]
    decreases if n > 0 then n else 0
  {
    if n > 0 {
      FeedersUpToIncreasing(s, n - 1, reply);
      FeedersUpToMembers(s, n - 1, reply);
      var front := FeedersUpTo(s, n - 1, reply);
      assert forall a :: 0 <= a < |front| ==> front[a] in front;
    }
  }

  /** The full matrix, when it is returned: its keys are exactly 1..N in order,
      every list is strictly increasing, and source s feeds destination d
      exactly when d is a port and its status shows s; so a destination
      showing 0 or less is fed by no source, and every other one by exactly
      the source it shows. */
  lemma MatrixMeaning(numberOfPorts: int, reply: int -> Option<int>)
    ensures MatrixOf(numberOfPorts, reply).Some? ==>
              var m := MatrixOf(numberOfPorts, reply).value;
              && |m| == PortCount(numberOfPorts)
              && (forall k :: 0 <= k < |m| ==> m[k].source == k + 1)
              && (forall k, a, b :: 0 <= k < |m| && 0 <= a < b < |m[k].dests| ==> m[k].dests[a] < m[k].dests[b])
              && (forall s, d :: Feeds(m, s, d) <==> 1 <= d <= numberOfPorts && 1 <= s && reply(d) == Some(s))
  {
    if MatrixOf(numberOfPorts, reply).Some? {
      var m := MatrixOf(numberOfPorts, reply).value;
      forall k | 0 <= k < |m|
        ensures forall d :: d in m[k].dests <==> 1 <= d <= numberOfPorts && reply(d) == Some(k + 1)
        ensures forall a, b :: 0 <= a < b < |m[k].dests| ==> m[k].dests[a] < m[k].dests[b]
      {
        FeedersUpToMembers(k + 1, numberOfPorts, reply);
        FeedersUpToIncreasing(k + 1, numberOfPorts, reply);
      }
      forall s, d
        ensures Feeds(m, s, d) <==> 1 <= d <= numberOfPorts && 1 <= s && reply(d) == Some(s)
      {
        if 1 <= d <= numberOfPorts && 1 <= s && reply(d) == Some(s) {
          assert !Unfileable(numberOfPorts, reply, d);
          assert d in m[s - 1].dests;
        }
      }
    }
  }

  /** Four ports whose destinations show sources 1, 2, 3, 2: source 2 feeds
      destinations 2 and 4, source 4 feeds none. */
  lemma MatrixExample(reply: int -> Option<int>)
    requires reply(1) == Some(1) && reply(2) == Some(2) && reply(3) == Some(3) && reply(4) == Some(2)
    ensures MatrixOf(4, reply) == Some([Entry(1, [1]), Entry(2, [2, 4]), Entry(3, [3]), Entry(4, [])])
  {
    assert !exists d :: 1 <= d <= 4 && Unfileable(4, reply, d) by {
      forall d | 1 <= d <= 4
        ensures !Unfileable(4, reply, d)
      {
        assert d == 1 || d == 2 || d == 3 || d == 4;
      }
    }
    assert FeedersUpTo(1, 1, reply) == [1] && FeedersUpTo(1, 2, reply) == [1] && FeedersUpTo(1, 3, reply) == [1];
    assert FeedersUpTo(1, 4, reply) == [1];
    assert FeedersUpTo(2, 1, reply) == [] && FeedersUpTo(2, 2, reply) == [2] && FeedersUpTo(2, 3, reply) == [2];
    assert FeedersUpTo(2, 4, reply) == [2, 4];
    assert FeedersUpTo(3, 1, reply) == [] && FeedersUpTo(3, 2, reply) == [] && FeedersUpTo(3, 3, reply) == [3];
    assert FeedersUpTo(3, 4, reply) == [3];
    assert FeedersUpTo(4, 1, reply) == [] && FeedersUpTo(4, 2, reply) == [] && FeedersUpTo(4, 3, reply) == [];
    assert FeedersUpTo(4, 4, reply) == [];
    var m := seq(4, k => Entry(k + 1, FeedersUpTo(k + 1, 4, reply)));
    assert MatrixOf(4, reply) == Some(m);
    assert m[0] == Entry(1, [1]) && m[1] == Entry(2, [2, 4]) && m[2] == Entry(3, [3]) && m[3] == Entry(4, []);
    assert m == [m[0], m[1], m[2], m[3]];
  }
}
