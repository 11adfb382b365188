/** The messages of ResourceNotFoundException's secondary constructors. */
module NotFoundMessages {
  import opened Outcomes
  import opened Text
  import opened Decimal

  const Suffix: string := " not found"

  /** The (class, id string) constructor: the class's simple name, " #", the id, " not found". */
  function ForId(simpleName: string, id: string): (m: string)
    ensures StartsWith(m, simpleName + " #")
    ensures |m| == |simpleName| + 2 + |id| + |Suffix| && m[|m| - |Suffix|..] == Suffix
    ensures m[|simpleName| + 2..|m| - |Suffix|] == id
  {
    simpleName + " #" + id + Suffix
  }

  /** Two messages for the same class agree exactly when the ids agree. */
  lemma ForIdInjective(simpleName: string, a: string, b: string)
    ensures ForId(simpleName, a) == ForId(simpleName, b) <==> a == b
  {
  }

  /** The (class, Int) constructor: the string form applied to the decimal rendering of the id. */
  function ForIntId(simpleName: string, id: int): (m: string)
    ensures m == ForId(simpleName, IntToString(id))
    ensures ParseInt(m[|simpleName| + 2..|m| - |Suffix|]) == Some(id)
  {
    IntRoundTrip(id);
    ForId(simpleName, IntToString(id))
  }

  /** Distinct ids give distinct messages, negative ids included. */
  lemma ForIntIdInjective(simpleName: string, a: int, b: int)
    ensures ForIntId(simpleName, a) == ForIntId(simpleName, b) <==> a == b
  {
    var ma, mb := ForIntId(simpleName, a), ForIntId(simpleName, b);
    if ma == mb {
      assert ParseInt(ma[|simpleName| + 2..|ma| - |Suffix|]) == Some(a);
    }
  }

  /** The message for a missing AppUser, as UserService and UserController raise it. */
  function AppUserNotFound(id: int): (m: string)
    ensures StartsWith(m, "AppUser #") && |m| > 9 + |Suffix| && m[|m| - |Suffix|..] == Suffix
    ensures ParseInt(m[9..|m| - |Suffix|]) == Some(id)
  {
    ForIntId("AppUser", id)
  }

  lemma AppUserMinusOne()
    ensures AppUserNotFound(-1) == "AppUser #-1 not found"
  {
    assert IntToString(-1) == "-1" by {
      assert NatToString(1) == [DigitChar(1)];
    }
  }
}
