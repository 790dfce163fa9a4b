/**
 * The guest list page: the search filter and the RSVP counts.
 */
module Guests {
  import opened Wrappers
  import opened Seqs
  import opened Text
  import opened Schema

  predicate IsConfirmed(g: Guest)
  {
    g.fields.rsvpStatus == Some("confirmed")
  }

  predicate IsPending(g: Guest)
  {
    g.fields.rsvpStatus == Some("pending")
  }

  predicate IsDeclined(g: Guest)
  {
    g.fields.rsvpStatus == Some("declined")
  }

  /** An RSVP status the page counts: one of the three it lists. */
  predicate HasListedRsvp(g: Guest)
  {
    IsConfirmed(g) || IsPending(g) || IsDeclined(g)
  }

  /**
   * The search condition: the lower-cased name contains the lower-cased term,
   * or there is an email and its lower-cased form contains it.
   */
  predicate MatchesSearch(g: Guest, term: string)
    ensures term == [] ==> MatchesSearch(g, term)
    ensures MatchesSearch(g, term) ==>
      |term| <= |g.fields.name| || (g.fields.email.Some? && |term| <= |g.fields.email.value|)
  {
    IncludesMeaning(Lower(g.fields.name), Lower(term));
    if g.fields.email.Some? then
      IncludesMeaning(Lower(g.fields.email.value), Lower(term));
      Includes(Lower(g.fields.name), Lower(term)) || Includes(Lower(g.fields.email.value), Lower(term))
    else
      Includes(Lower(g.fields.name), Lower(term))
  }

  /** `filteredGuests`: the matching guests, in list order. */
  function FilteredGuests(guests: seq<Guest>, term: string): (r: seq<Guest>)
    ensures IsSubsequence(r, guests)
    ensures forall i :: 0 <= i < |r| ==> r[i] in guests && MatchesSearch(r[i], term)
    ensures forall i :: 0 <= i < |guests| && MatchesSearch(guests[i], term) ==> guests[i] in r
  {
    Filter(guests, g => MatchesSearch(g, term))
  }

  /** A guest matches exactly when the term occurs in the lower-cased name or email; a null email never matches. */
  lemma SearchMeaning(g: Guest, term: string)
    ensures MatchesSearch(g, term) <==>
      (exists i :: OccursAt(Lower(g.fields.name), Lower(term), i)) ||
      (g.fields.email.Some? && exists i :: OccursAt(Lower(g.fields.email.value), Lower(term), i))
  {
    IncludesMeaning(Lower(g.fields.name), Lower(term));
    if g.fields.email.Some? {
      IncludesMeaning(Lower(g.fields.email.value), Lower(term));
    }
  }

  /** An empty search keeps every guest. */
  lemma EmptySearchKeepsAll(guests: seq<Guest>)
    ensures FilteredGuests(guests, "") == guests
  {
    var p := (g: Guest) => MatchesSearch(g, "");
    forall g | g in guests ensures p(g) {
      IncludesMeaning(Lower(g.fields.name), Lower(""));
    }
    FilterAll(guests, p);
  }

  /** The confirmed, pending and declined counts shown on the page. */
  function RsvpCounts(guests: seq<Guest>): (r: (nat, nat, nat))
    ensures r.0 <= |guests| && r.1 <= |guests| && r.2 <= |guests|
  {
    (Count(guests, IsConfirmed), Count(guests, IsPending), Count(guests, IsDeclined))
  }

  /**
   * The three counts never exceed the list, and they add up to it exactly
   * when every guest's status is one of the three listed values.
   */
  lemma {:induction false} RsvpCountsCover(guests: seq<Guest>)
    ensures var (c, p, d) := RsvpCounts(guests); c + p + d <= |guests|
    ensures var (c, p, d) := RsvpCounts(guests);
      c + p + d == |guests| <==> forall i :: 0 <= i < |guests| ==> HasListedRsvp(guests[i])
  {
    if guests != [] {
      var rest := guests[1..];
      RsvpCountsCover(rest);
      if !HasListedRsvp(guests[0]) {
        var (c, p, d) := RsvpCounts(guests);
        assert c + p + d < |guests|;
      } else {
        assert forall i :: 0 < i < |guests| ==> guests[i] == rest[i - 1];
      }
    }
  }
}
