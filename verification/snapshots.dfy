/** Snapshot storage: a current value with a changelog of the values it replaced, one per height. */
module Snapshots {
  import opened Cosmos

  ghost function Least(s: set<nat>): (r: nat)
    requires s != {}
    ensures r in s && forall k :: k in s ==> r <= k
  {
    var x :| x in s;
    if s == {x} then x
    else
      var rest := Least(s - {x});
      assert forall k :: k in s ==> k == x || k in s - {x};
      Min(x, rest)
  }

  datatype Snapshot<V> = Snapshot(current: Option<V>, changelog: map<nat, Option<V>>) {
    /** The first save at a height records the value it replaces. */
    function Save(value: V, height: nat): Snapshot<V> {
      Snapshot(Some(value), if height in changelog then changelog else changelog[height := current])
    }

    /** The changelog entries a query at `height` looks at. */
    function EntriesFrom(height: nat): set<nat> {
      set k | k in changelog && height <= k
    }

    /** The value recorded by the first entry at or after `height`, else the current one. */
    ghost function LoadAt(height: nat): Option<V> {
      if EntriesFrom(height) == {} then current else changelog[Least(EntriesFrom(height))]
    }
  }

  /** A value saved by a message in block `b`, under height `b - 1`, is what queries at `b` and above
      see; queries below `b` are answered as before. Entries at or above a queried height must come
      from blocks already past. */
  lemma SaveThenLoad<V>(s: Snapshot<V>, value: V, b: nat, height: nat)
    requires b >= 1
    requires forall k :: k in s.changelog ==> k < b || k < height
    ensures s.Save(value, b - 1).LoadAt(height) == if height >= b then Some(value) else s.LoadAt(height)
  {
    var before, after := s.EntriesFrom(height), s.Save(value, b - 1).EntriesFrom(height);
    if height >= b {
      assert after == {};
    } else if before == {} {
      assert after == {b - 1};
    } else {
      assert after == before + {b - 1};
      assert Least(after) == Least(before);
    }
  }

  /** A save can only redirect a query that is already answered from the changelog to the value the
      save replaces. */
  lemma SaveRedirects<V>(s: Snapshot<V>, value: V, height: nat, queried: nat)
    requires s.EntriesFrom(queried) != {}
    ensures var r := s.Save(value, height).LoadAt(queried);
            r == s.LoadAt(queried) || (height !in s.changelog && r == s.current)
  {
    var before, after := s.EntriesFrom(queried), s.Save(value, height).EntriesFrom(queried);
    assert Least(before) in after;
    assert Least(after) == height || Least(after) in before;
  }
}
