/**
 * Keys joined with ':': the pending table of requests (src/services/job_apply.rs) and the Redis
 * keys of a paging transaction (src/services/search.rs) use them.
 */
module JoinedKeys {

  function Join(left: string, right: string): string {
    left + ":" + right
  }

  lemma LastColon(left: string, right: string)
    requires ':' !in right
    ensures Join(left, right)[|left|] == ':'
    ensures forall i :: |left| < i < |Join(left, right)| ==> Join(left, right)[i] != ':'
  {
    forall i | |left| < i < |Join(left, right)| ensures Join(left, right)[i] != ':' {
      assert Join(left, right)[i] == right[i - |left| - 1];
    }
  }

  /** Without ':' in the right parts the joined key determines both parts. */
  lemma JoinIsInjective(left: string, right: string, left': string, right': string)
    requires ':' !in right && ':' !in right' && Join(left, right) == Join(left', right')
    ensures left == left' && right == right'
  {
    var key := Join(left, right);
    LastColon(left, right);
    LastColon(left', right');
    assert |left| == |left'|;
    assert key[..|left|] == left && key[..|left'|] == left';
    assert key[|left| + 1..] == right && key[|left'| + 1..] == right';
  }

  /** A joined key stands for another pair as well exactly when one of its parts contains ':'. */
  lemma JoinIsAmbiguousIff(left: string, right: string)
    ensures (exists t, m :: Join(t, m) == Join(left, right) && (t != left || m != right)) <==>
      ':' in left || ':' in right
  {
    if i :| 0 <= i < |right| && right[i] == ':' {
      assert right == right[..i] + ":" + right[i + 1..];
      assert Join(left + ":" + right[..i], right[i + 1..]) == Join(left, right);
    } else if i :| 0 <= i < |left| && left[i] == ':' {
      assert left == left[..i] + ":" + left[i + 1..];
      assert Join(left[..i], left[i + 1..] + ":" + right) == Join(left, right);
    } else {
      forall t, m | Join(t, m) == Join(left, right) ensures t == left && m == right {
        var key := Join(left, right);
        assert key == left + ":" + right && key[|t|] == ':';
        assert |t| == |left|;
        assert key[..|t|] == t && key[..|left|] == left && key[|t| + 1..] == m && key[|left| + 1..] == right;
      }
    }
  }
}
