/** String helpers shared by the codec and the message formats. */
module Text {
  import opened Outcomes

  predicate StartsWith(s: string, prefix: string) {
    |prefix| <= |s| && s[..|prefix|] == prefix
  }

  /** The first position of `c` in `s`, if any. */
  function IndexOf(s: string, c: char): (r: Option<nat>)
    ensures r.Some? ==> r.value < |s| && s[r.value] == c
    ensures r.Some? ==> forall i :: 0 <= i < r.value ==> s[i] != c
    ensures r.None? ==> forall i :: 0 <= i < |s| ==> s[i] != c
  {
    if s == [] then None
    else if s[0] == c then Some(0)
    else match IndexOf(s[1..], c)
      case None => None
      case Some(k) => Some(k + 1)
  }

  /** A prefix free of `c`, followed by `c`, puts the first `c` just after the prefix. */
  lemma IndexAfterPrefix(p: string, c: char, t: string)
    requires forall i :: 0 <= i < |p| ==> p[i] != c
    ensures IndexOf(p + [c] + t, c) == Some(|p|)
  {
    var s := p + [c] + t;
    assert s[|p|] == c;
    assert forall i :: 0 <= i < |p| ==> s[i] == p[i];
  }
}
