/**
 * The testimonial record shared by the admin manager, the public submission form
 * and the public display, and the list operations on it that do not depend on
 * which form produced the change.
 */
module TestimonialStore {

  /** One endorsement. `id` is a creation timestamp in the site; here it is an input. */
  datatype Testimonial = Testimonial(
    id: int,
    name: string,
    company: string,
    role: string,
    content: string,
    rating: int,
    avatar: string,
    featured: bool)

  /** The storage key under which the whole list is persisted. */
  const StorageKey: string := "inaratech_testimonials"

  /** The generic person glyph the forms start with. */
  const DefaultAvatar: string := "\U{1F464}"

  /** The twelve avatar buttons both forms offer, in display order. */
  const AvatarOptions: seq<string> := [
    "\U{1F464}",
    "\U{1F469}\U{200D}\U{1F4BC}", "\U{1F468}\U{200D}\U{1F4BB}", "\U{1F469}\U{200D}\U{1F3A8}",
    "\U{1F468}\U{200D}\U{1F4BC}", "\U{1F469}\U{200D}\U{2695}\U{FE0F}", "\U{1F468}\U{200D}\U{1F680}",
    "\U{1F469}\U{200D}\U{1F52C}", "\U{1F468}\U{200D}\U{1F393}", "\U{1F469}\U{200D}\U{1F4BB}",
    "\U{1F468}\U{200D}\U{1F3EB}", "\U{1F469}\U{200D}\U{1F680}"]

  /** The rating buttons are 1..5 stars. */
  predicate IsRating(r: int) {
    1 <= r <= 5
  }

  /** What the form controls can produce: a star rating and an offered avatar. */
  predicate WellFormed(t: Testimonial) {
    IsRating(t.rating) && t.avatar in AvatarOptions
  }

  predicate AllWellFormed(list: seq<Testimonial>) {
    forall i :: 0 <= i < |list| ==> WellFormed(list[i])
  }

  predicate UniqueIds(list: seq<Testimonial>) {
    forall i, j :: 0 <= i < j < |list| ==> list[i].id != list[j].id
  }

  /** `list.filter(t => t.id !== id)` */
  function Removed(list: seq<Testimonial>, id: int): (r: seq<Testimonial>)
    ensures forall t :: t in r <==> t in list && t.id != id
    ensures |r| <= |list|
  {
    if list == [] then []
    else (if list[0].id != id then [list[0]] else []) + Removed(list[1..], id)
  }

  /** Deleting keeps the relative order of what remains: it distributes over concatenation. */
  lemma {:induction false} RemovedConcat(a: seq<Testimonial>, b: seq<Testimonial>, id: int)
    ensures Removed(a + b, id) == Removed(a, id) + Removed(b, id)
  {
    if a == [] {
      assert a + b == b;
    } else {
      assert (a + b)[1..] == a[1..] + b;
      RemovedConcat(a[1..], b, id);
    }
  }

  /** Deleting an id no record carries changes nothing. */
  lemma {:induction false} RemovedAbsent(list: seq<Testimonial>, id: int)
    requires forall t :: t in list ==> t.id != id
    ensures Removed(list, id) == list
  {
    if list != [] {
      assert forall t :: t in list[1..] ==> t in list;
      RemovedAbsent(list[1..], id);
    }
  }

  /** Deleting twice is deleting once. */
  lemma RemovedIdempotent(list: seq<Testimonial>, id: int)
    ensures Removed(Removed(list, id), id) == Removed(list, id)
  {
    RemovedAbsent(Removed(list, id), id);
  }

  /** Deleting keeps ids unique. */
  lemma {:induction false} RemovedUnique(list: seq<Testimonial>, id: int)
    requires UniqueIds(list)
    ensures UniqueIds(Removed(list, id))
  {
    if list != [] {
      var rest := list[1..];
      assert UniqueIds(rest) by {
        forall i, j | 0 <= i < j < |rest| ensures rest[i].id != rest[j].id {
          assert rest[i] == list[i + 1] && rest[j] == list[j + 1];
        }
      }
      RemovedUnique(rest, id);
      var tail := Removed(rest, id);
      forall t | t in tail ensures t.id != list[0].id {
        var k :| 0 <= k < |rest| && rest[k] == t;
        assert list[k + 1] == t;
      }
    }
  }

  /** Deleting keeps every remaining record well formed. */
  lemma RemovedWellFormed(list: seq<Testimonial>, id: int)
    requires AllWellFormed(list)
    ensures AllWellFormed(Removed(list, id))
  {
    var r := Removed(list, id);
    forall i | 0 <= i < |r| ensures WellFormed(r[i]) {
      assert r[i] in list;
    }
  }
}
