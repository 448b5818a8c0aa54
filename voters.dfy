/** The Oakland voter filter: the voters whose mailing city, or failing that
    whose city, contains "OAKLAND" once upper-cased. Neither read is guarded,
    so a voter without the city it is asked for stops the whole run. */
module VoterFilter {
  import opened Text
  import opened Records

  const Oakland := "OAKLAND"

  /** The filter's predicate on one voter: `Some(keep)`, or `None` where
      `.toUpperCase()` is called on a missing city and throws. The city is
      read only when the mailing city does not already qualify. */
  function IsOaklandVoter(v: Voter): (r: Option<bool>)
    ensures r.None? <==>
      v.mailCity.None? || (!IsSubstring(Oakland, Upper(v.mailCity.value)) && v.city.None?)
    ensures r == Some(true) <==>
      v.mailCity.Some? &&
      (IsSubstring(Oakland, Upper(v.mailCity.value)) ||
       (v.city.Some? && IsSubstring(Oakland, Upper(v.city.value))))
  {
    match v.mailCity
    case None => None
    case Some(mailCity) =>
      if Includes(Upper(mailCity), Oakland) then Some(true)
      else
        match v.city
        case None => None
        case Some(city) => Some(Includes(Upper(city), Oakland))
  }

  /** `a` is `b` with some elements left out, the rest in their order. */
  ghost predicate IsSubsequence(a: seq<Voter>, b: seq<Voter>)
    decreases |b|
  {
    if b == [] then a == []
    else (a != [] && a[0] == b[0] && IsSubsequence(a[1..], b[1..])) || IsSubsequence(a, b[1..])
  }

  /** The voter is kept by the filter. */
  predicate Kept(v: Voter)
  {
    IsOaklandVoter(v) == Some(true)
  }

  /** `voters.filter(...)`: `None` when the predicate throws on some voter
      (the exception is not caught); otherwise only voters it accepts. */
  function OaklandVoters(voters: seq<Voter>): (r: Option<seq<Voter>>)
    ensures r.None? <==> exists k :: 0 <= k < |voters| && IsOaklandVoter(voters[k]).None?
    ensures r.Some? ==> forall k :: 0 <= k < |r.value| ==> Kept(r.value[k])
  {
    if voters == [] then Some([])
    else
      var v := voters[0];
      var rest := OaklandVoters(voters[1..]);
      assert forall k :: 1 <= k < |voters| ==> voters[k] == voters[1..][k - 1];
      match IsOaklandVoter(v)
      case None => None
      case Some(keep) =>
        match rest
        case None => None
        case Some(tail) =>
          if keep then
            assert ([v] + tail)[1..] == tail;
            Some([v] + tail)
          else Some(tail)
  }

  /** The filter keeps the accepted voters in their input order. */
  lemma {:induction false} FilterKeepsOrder(voters: seq<Voter>)
    requires OaklandVoters(voters).Some?
    ensures IsSubsequence(OaklandVoters(voters).value, voters)
  {
    if voters != [] {
      FilterKeepsOrder(voters[1..]);
      var tail := OaklandVoters(voters[1..]).value;
      if Kept(voters[0]) {
        assert ([voters[0]] + tail)[1..] == tail;
      }
    }
  }

  /** The filter keeps each accepted voter as many times as it occurs and
      drops every other voter. */
  lemma {:induction false} FilterKeepsCount(voters: seq<Voter>, v: Voter)
    requires OaklandVoters(voters).Some?
    ensures multiset(OaklandVoters(voters).value)[v] == if Kept(v) then multiset(voters)[v] else 0
  {
    if voters != [] {
      FilterKeepsCount(voters[1..], v);
      assert voters == [voters[0]] + voters[1..];
      assert multiset(voters) == multiset([voters[0]]) + multiset(voters[1..]);
      var tail := OaklandVoters(voters[1..]).value;
      if Kept(voters[0]) {
        assert OaklandVoters(voters).value == [voters[0]] + tail;
        assert multiset([voters[0]] + tail) == multiset([voters[0]]) + multiset(tail);
      } else {
        assert OaklandVoters(voters).value == tail;
      }
    }
  }

  /** Ordinary ASCII case in the city does not matter: a mailing city
      containing "oakland" (or "Oakland") qualifies the voter. */
  lemma {:induction false} UpperKeepsOccurrence(hay: string, needle: string)
    requires IsSubstring(needle, hay)
    ensures IsSubstring(Upper(needle), Upper(hay))
  {
    var i :| OccursAt(hay, needle, i);
    assert Upper(hay)[i..i + |needle|] == Upper(needle) by {
      forall k | 0 <= k < |needle|
        ensures Upper(hay)[i..i + |needle|][k] == Upper(needle)[k]
      {
        assert hay[i..i + |needle|][k] == needle[k];
      }
    }
    assert OccursAt(Upper(hay), Upper(needle), i);
  }

  /** A voter whose mailing city contains "oakland" in any ASCII case is
      kept, whatever their city. */
  lemma MailCityDecides(v: Voter, spelling: string)
    requires v.mailCity.Some? && IsSubstring(spelling, v.mailCity.value)
    requires Upper(spelling) == Oakland
    ensures Kept(v)
  {
    UpperKeepsOccurrence(v.mailCity.value, spelling);
  }

  /** Filtering twice keeps what filtering once keeps. */
  lemma {:induction false} FilterIdempotent(voters: seq<Voter>)
    requires OaklandVoters(voters).Some?
    ensures OaklandVoters(OaklandVoters(voters).value) == OaklandVoters(voters)
  {
    if voters != [] {
      FilterIdempotent(voters[1..]);
      var tail := OaklandVoters(voters[1..]).value;
      if Kept(voters[0]) {
        assert ([voters[0]] + tail)[1..] == tail;
      }
    }
  }
}
