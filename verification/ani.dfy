/** Conversion between the path of an ANI instance and the path of its
    TC.Authentication object. */
module Ani {
  import opened Wrappers
  import opened Strs

  const DOT_TC_AUTHENTICATION: string := ".TC.Authentication"

  /** ani_append_tc_authentication() */
  function Append(aniPath: string): (r: string)
    ensures StartsWith(r, aniPath) && |r| == |aniPath| + |DOT_TC_AUTHENTICATION|
    ensures r[|aniPath|..] == DOT_TC_AUTHENTICATION
  {
    aniPath + DOT_TC_AUTHENTICATION
  }

  /** The authentication object lies strictly below the ANI instance. */
  lemma AppendBelow(aniPath: string)
    ensures StartsWith(Append(aniPath), aniPath + ".") && Append(aniPath) != aniPath
  {
    var r := Append(aniPath);
    assert r[|aniPath|] == DOT_TC_AUTHENTICATION[0];
    assert r[..|aniPath| + 1] == aniPath + ".";
  }

  /** Result of a strip: the C return value and the output string. */
  datatype Stripped = Stripped(ok: bool, path: string)

  /** ani_strip_tc_authentication(): removes the first occurrence of
      ".TC.Authentication"; fails, keeping the input, when there is none. */
  function Strip(authPath: string): (r: Stripped)
    ensures r.ok <==> Contains(authPath, DOT_TC_AUTHENTICATION)
    ensures !r.ok ==> r.path == authPath
    ensures r.ok ==>
      var j := FindFirst(authPath, DOT_TC_AUTHENTICATION).value;
      && j <= |r.path|
      && authPath == r.path[..j] + DOT_TC_AUTHENTICATION + r.path[j..]
  {
    match FindFirst(authPath, DOT_TC_AUTHENTICATION)
    case None => Stripped(false, authPath)
    case Some(j) =>
      var out := authPath[..j] + authPath[j + |DOT_TC_AUTHENTICATION|..];
      assert out[..j] == authPath[..j];
      assert out[j..] == authPath[j + |DOT_TC_AUTHENTICATION|..];
      Stripped(true, out)
  }

  /** No proper suffix of ".TC.Authentication" is also a prefix of it, so an
      occurrence cannot straddle the end of an ANI path. */
  lemma NoBorder()
    ensures forall k :: 0 < k < |DOT_TC_AUTHENTICATION| ==>
      DOT_TC_AUTHENTICATION[k..] != DOT_TC_AUTHENTICATION[..|DOT_TC_AUTHENTICATION| - k]
  {
    var a := DOT_TC_AUTHENTICATION;
    forall k | 0 < k < |a| ensures a[k..] != a[..|a| - k] {
      if k == 3 {
        assert a[k..][1] != a[..|a| - k][1];
      } else {
        assert a[k..][0] != a[..|a| - k][0];
      }
    }
  }

  /** An occurrence starting inside `p` cannot end inside the appended text. */
  lemma NoStraddle(p: string, j: nat)
    requires j < |p| < j + |DOT_TC_AUTHENTICATION|
    ensures !OccursAt(p + DOT_TC_AUTHENTICATION, DOT_TC_AUTHENTICATION, j)
  {
    var a := DOT_TC_AUTHENTICATION;
    var s := p + a;
    var k := |p| - j;
    NoBorder();
    assert s[j..j + |a|][k..] == a[..|a| - k];
    assert a[k..] != a[..|a| - k];
  }

  /** Stripping undoes appending, for an ANI path that does not itself
      contain ".TC.Authentication". */
  lemma {:induction false} StripAppend(aniPath: string)
    requires !Contains(aniPath, DOT_TC_AUTHENTICATION)
    ensures Strip(Append(aniPath)) == Stripped(true, aniPath)
  {
    var a := DOT_TC_AUTHENTICATION;
    var s := aniPath + a;
    var n := |aniPath|;
    assert OccursAt(s, a, n) by { assert s[n..n + |a|] == a; }
    forall j: nat | j < n ensures !OccursAt(s, a, j) {
      if OccursAt(s, a, j) {
        if j + |a| <= n {
          assert aniPath[j..j + |a|] == s[j..j + |a|];
          assert OccursAt(aniPath, a, j);
        } else {
          NoStraddle(aniPath, j);
        }
      }
    }
    var f := FindFirst(s, a);
    assert f.Some?;
    assert f.value == n;
    assert s[..n] + s[n + |a|..] == aniPath;
  }

  /** Appending undoes stripping, for a path whose only occurrence of
      ".TC.Authentication" is at its end. */
  lemma AppendStrip(authPath: string)
    requires Strip(authPath).ok
    requires FindFirst(authPath, DOT_TC_AUTHENTICATION).value + |DOT_TC_AUTHENTICATION| == |authPath|
    ensures Append(Strip(authPath).path) == authPath
  {
  }
}
