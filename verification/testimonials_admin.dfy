/**
 * The admin manager (src/components/TestimonialsAdmin.jsx): a form plus the list of
 * testimonials, every change of which is written back to storage under
 * `inaratech_testimonials`.
 */
module TestimonialsAdminUI {
  import opened Wrappers
  import opened TestimonialStore
  import opened LocalStorage
  import TestimonialsUI

  /**
   * The admin form. It starts without an id; `Edit` copies a whole record into
   * it, id included, and the spreads in `Merge` and `NewRecord` carry that id along.
   */
  datatype Draft = Draft(
    id: Option<int>,
    name: string,
    company: string,
    role: string,
    content: string,
    rating: int,
    avatar: string,
    featured: bool)

  const DefaultDraft: Draft := Draft(None, "", "", "", "", 5, DefaultAvatar, false)

  /** The four text inputs of the form, by their `name` attribute. */
  datatype TextField = Name | Company | Role | Content

  predicate DraftWellFormed(f: Draft) {
    IsRating(f.rating) && f.avatar in AvatarOptions
  }

  /** `if (editingId)`: JavaScript truthiness, so a null id and the id 0 both mean "adding". */
  predicate IdIsTruthy(editingId: Option<int>) {
    editingId.Some? && editingId.value != 0
  }

  /** The form after `handleEdit(t)`: the record itself. */
  function DraftOf(t: Testimonial): (f: Draft)
    ensures WellFormed(t) ==> DraftWellFormed(f)
  {
    Draft(Some(t.id), t.name, t.company, t.role, t.content, t.rating, t.avatar, t.featured)
  }

  /** `{ ...prior, ...formData }`: every form field overrides the prior one; the id only if the form has one. */
  function Merge(prior: Testimonial, f: Draft): (t: Testimonial)
    ensures DraftWellFormed(f) ==> WellFormed(t)
    ensures f.id.None? ==> t.id == prior.id
  {
    Testimonial(if f.id.Some? then f.id.value else prior.id,
      f.name, f.company, f.role, f.content, f.rating, f.avatar, f.featured)
  }

  /** `{ id: Date.now(), ...formData }`: a form that carries an id keeps it over the clock's. */
  function NewRecord(now: int, f: Draft): (t: Testimonial)
    ensures DraftWellFormed(f) ==> WellFormed(t)
    ensures f.id.None? ==> t.id == now
  {
    Testimonial(if f.id.Some? then f.id.value else now,
      f.name, f.company, f.role, f.content, f.rating, f.avatar, f.featured)
  }

  /** Merging a record with the form `Edit` made of it gives the record back. */
  lemma MergeOwnDraft(t: Testimonial)
    ensures Merge(t, DraftOf(t)) == t
  {
  }

  /** `prev.map(t => t.id === editingId ? { ...t, ...formData } : t)` */
  function Updated(list: seq<Testimonial>, id: int, f: Draft): (r: seq<Testimonial>)
    ensures |r| == |list|
    ensures forall i :: 0 <= i < |list| ==>
      r[i] == if list[i].id == id then Merge(list[i], f) else list[i]
  {
    if list == [] then []
    else [if list[0].id == id then Merge(list[0], f) else list[0]] + Updated(list[1..], id, f)
  }

  /** Submitting the form unchanged right after `Edit` leaves the list exactly as it was. */
  lemma EditUnchangedIsIdentity(list: seq<Testimonial>, t: Testimonial)
    requires UniqueIds(list) && t in list
    ensures Updated(list, t.id, DraftOf(t)) == list
  {
    var r := Updated(list, t.id, DraftOf(t));
    var k :| 0 <= k < |list| && list[k] == t;
    forall i | 0 <= i < |list| ensures r[i] == list[i] {
      if list[i].id == t.id {
        assert i == k;
      }
    }
  }

  /** Updating an id no record carries changes nothing; the source reports no error. */
  lemma UpdatedMissing(list: seq<Testimonial>, id: int, f: Draft)
    requires forall t :: t in list ==> t.id != id
    ensures Updated(list, id, f) == list
  {
    var r := Updated(list, id, f);
    forall i | 0 <= i < |list| ensures r[i] == list[i] {
      assert list[i] in list;
    }
  }

  /** After a delete, an edit of the same id finds nothing to change. */
  lemma DeleteThenUpdate(list: seq<Testimonial>, id: int, f: Draft)
    ensures Updated(Removed(list, id), id, f) == Removed(list, id)
  {
    UpdatedMissing(Removed(list, id), id, f);
  }

  /** An update whose form id is absent or the edited id keeps every id, hence uniqueness. */
  lemma UpdatedUnique(list: seq<Testimonial>, id: int, f: Draft)
    requires UniqueIds(list)
    requires f.id.None? || f.id == Some(id)
    ensures UniqueIds(Updated(list, id, f))
  {
    var r := Updated(list, id, f);
    assert forall i :: 0 <= i < |list| ==> r[i].id == list[i].id;
  }

  /** Appending a record whose id is new keeps ids unique. */
  lemma AppendUnique(list: seq<Testimonial>, t: Testimonial)
    requires UniqueIds(list)
    requires forall u :: u in list ==> u.id != t.id
    ensures UniqueIds(list + [t])
  {
    var r := list + [t];
    forall i, j | 0 <= i < j < |r| ensures r[i].id != r[j].id {
      if j == |list| {
        assert r[i] in list;
      } else {
        assert r[i] == list[i] && r[j] == list[j];
      }
    }
  }

  class TestimonialsAdmin {
    const store: Store
    var testimonials: seq<Testimonial>
    var isEditing: bool
    var editingId: Option<int>
    var formData: Draft

    /** The save effect runs after every change of the list, so storage always holds it. */
    ghost predicate Valid()
      reads this, store
    {
      StorageKey in store.items && store.items[StorageKey] == Records(testimonials)
    }

    /** The form's id, when it has one, is the id being edited: `Edit` and `ResetForm` set both. */
    ghost predicate InSync()
      reads this
    {
      formData.id.Some? ==> editingId == formData.id
    }

    /** Everything the form controls can put into records is a star rating and an offered avatar. */
    ghost predicate ChoicesValid()
      reads this
    {
      AllWellFormed(testimonials) && DraftWellFormed(formData)
    }

    /**
     * Mounting: the load effect reads the stored list (none means []), then the
     * save effect writes the state back, first the initial [] and, after the
     * re-render, the loaded list. The key is therefore present afterwards.
     */
    constructor (store: Store)
      modifies store
      ensures this.store == store && Valid() && InSync()
      ensures testimonials == RecordsOrEmpty(old(store.items), StorageKey)
      ensures store.items == old(store.items)[StorageKey := Records(testimonials)]
      ensures formData == DefaultDraft && editingId == None && !isEditing
    {
      this.store := store;
      isEditing := false;
      editingId := None;
      formData := DefaultDraft;
      testimonials := RecordsOrEmpty(store.items, StorageKey);
      new;
      store.SetItem(StorageKey, Records([]));
      store.SetItem(StorageKey, Records(testimonials));
    }

    /** The "Add Testimonial" button only opens the form. */
    method OpenForm()
      modifies this`isEditing
      ensures isEditing
    {
      isEditing := true;
    }

    /** `handleInputChange` for the four text inputs. */
    method SetText(field: TextField, value: string)
      modifies this`formData
      ensures formData == match field
                          case Name => old(formData).(name := value)
                          case Company => old(formData).(company := value)
                          case Role => old(formData).(role := value)
                          case Content => old(formData).(content := value)
      ensures old(InSync()) ==> InSync()
      ensures old(ChoicesValid()) ==> ChoicesValid()
    {
      formData := match field
                  case Name => formData.(name := value)
                  case Company => formData.(company := value)
                  case Role => formData.(role := value)
                  case Content => formData.(content := value);
    }

    /** `handleInputChange` for the "featured" checkbox. */
    method SetFeatured(checked: bool)
      modifies this`formData
      ensures formData == old(formData).(featured := checked)
      ensures old(InSync()) ==> InSync()
      ensures old(ChoicesValid()) ==> ChoicesValid()
    {
      formData := formData.(featured := checked);
    }

    /** One of the avatar buttons, by its position among the options. */
    method PickAvatar(choice: nat)
      requires choice < |AvatarOptions|
      modifies this`formData
      ensures formData == old(formData).(avatar := AvatarOptions[choice])
      ensures old(InSync()) ==> InSync()
      ensures old(AllWellFormed(testimonials) && IsRating(formData.rating)) ==> ChoicesValid()
    {
      formData := formData.(avatar := AvatarOptions[choice]);
    }

    /** One of the five star buttons. */
    method PickRating(stars: int)
      requires IsRating(stars)
      modifies this`formData
      ensures formData == old(formData).(rating := stars)
      ensures old(InSync()) ==> InSync()
      ensures old(AllWellFormed(testimonials) && formData.avatar in AvatarOptions) ==> ChoicesValid()
    {
      formData := formData.(rating := stars);
    }

    /** `resetForm`, also the "Cancel" button. */
    method ResetForm()
      modifies this`formData, this`editingId, this`isEditing
      ensures formData == DefaultDraft && editingId == None && !isEditing
      ensures InSync()
      ensures old(AllWellFormed(testimonials)) ==> ChoicesValid()
    {
      formData := DefaultDraft;
      editingId := None;
      isEditing := false;
    }

    /**
     * `handleSubmit`: with a truthy `editingId` every record with that id gets the
     * form merged into it, otherwise the form becomes a new record at the end; the
     * list is saved and the form reset.
     */
    method HandleSubmit(now: int)
      modifies this, store
      ensures Valid()
      ensures testimonials == if IdIsTruthy(old(editingId))
                              then Updated(old(testimonials), old(editingId).value, old(formData))
                              else old(testimonials) + [NewRecord(now, old(formData))]
      ensures store.items == old(store.items)[StorageKey := Records(testimonials)]
      ensures formData == DefaultDraft && editingId == None && !isEditing && InSync()
      ensures old(ChoicesValid()) ==> ChoicesValid()
      ensures old(UniqueIds(testimonials) && InSync() && formData.id.None?)
              && (forall t :: t in old(testimonials) ==> t.id != now)
              ==> UniqueIds(testimonials)
      ensures old(UniqueIds(testimonials) && InSync() && IdIsTruthy(editingId)) ==> UniqueIds(testimonials)
    {
      if IdIsTruthy(editingId) {
        if UniqueIds(testimonials) && InSync() {
          UpdatedUnique(testimonials, editingId.value, formData);
        }
        testimonials := Updated(testimonials, editingId.value, formData);
        assert old(ChoicesValid()) ==> AllWellFormed(testimonials) by {
          if old(ChoicesValid()) {
            forall i | 0 <= i < |testimonials| ensures WellFormed(testimonials[i]) {
              assert old(testimonials)[i] in old(testimonials);
            }
          }
        }
      } else {
        var added := NewRecord(now, formData);
        if UniqueIds(testimonials) && formData.id.None? && forall t :: t in testimonials ==> t.id != now {
          AppendUnique(testimonials, added);
        }
        testimonials := testimonials + [added];
      }
      store.SetItem(StorageKey, Records(testimonials));
      ResetForm();
    }

    /** `handleEdit(t)`: the whole record goes into the form, and its id becomes the edited id. */
    method HandleEdit(t: Testimonial)
      modifies this`formData, this`editingId, this`isEditing
      ensures formData == DraftOf(t) && editingId == Some(t.id) && isEditing
      ensures InSync()
      ensures old(AllWellFormed(testimonials)) && t in testimonials ==> ChoicesValid()
    {
      formData := DraftOf(t);
      editingId := Some(t.id);
      isEditing := true;
    }

    /** `handleDelete(id)`: only a confirmed delete filters the list and saves it. */
    method HandleDelete(id: int, confirmed: bool)
      modifies this`testimonials, store
      ensures confirmed || old(Valid()) ==> Valid()
      ensures testimonials == if confirmed then Removed(old(testimonials), id) else old(testimonials)
      ensures store.items == if confirmed then old(store.items)[StorageKey := Records(testimonials)]
                             else old(store.items)
      ensures old(ChoicesValid()) ==> ChoicesValid()
      ensures old(UniqueIds(testimonials)) ==> UniqueIds(testimonials)
    {
      if confirmed {
        if AllWellFormed(testimonials) {
          RemovedWellFormed(testimonials, id);
        }
        if UniqueIds(testimonials) {
          RemovedUnique(testimonials, id);
        }
        testimonials := Removed(testimonials, id);
        store.SetItem(StorageKey, Records(testimonials));
      }
    }
  }

  /** Edit a listed record and submit the form untouched: list and storage stay as they were. */
  method EditThenSubmitUnchanged(admin: TestimonialsAdmin, t: Testimonial, now: int)
    requires admin.Valid() && UniqueIds(admin.testimonials) && t in admin.testimonials && t.id != 0
    modifies admin, admin.store
    ensures admin.testimonials == old(admin.testimonials)
    ensures admin.store.items == old(admin.store.items)
  {
    admin.HandleEdit(t);
    admin.HandleSubmit(now);
    EditUnchangedIsIdentity(old(admin.testimonials), t);
  }

  /**
   * Two admin tabs open on the same storage: the second deletes `a`, then the
   * first, whose list is now out of step, deletes `b` and writes its own list, so
   * the last write wins and the record `a` is back.
   */
  method StaleTabOverwrites(store: Store, a: int, b: int) returns (first: TestimonialsAdmin, second: TestimonialsAdmin)
    modifies store
    ensures second.testimonials == Removed(RecordsOrEmpty(old(store.items), StorageKey), a)
    ensures first.testimonials == Removed(RecordsOrEmpty(old(store.items), StorageKey), b)
    ensures store.items == old(store.items)[StorageKey := Records(first.testimonials)]
  {
    ghost var saved := RecordsOrEmpty(store.items, StorageKey);
    first := new TestimonialsAdmin(store);
    second := new TestimonialsAdmin(store);
    assert first.testimonials == saved && second.testimonials == saved;
    second.HandleDelete(a, true);
    assert first.testimonials == saved;
    first.HandleDelete(b, true);
  }

  /**
   * On a fresh browser the public widget shows the six examples; once the admin
   * page has been opened it has stored an empty list, and the widget shows none.
   */
  method AdminVisitHidesExamples(store: Store) returns (before: TestimonialsUI.Testimonials, after: TestimonialsUI.Testimonials)
    requires StorageKey !in store.items
    modifies store
    ensures |before.testimonials| == 6
    ensures after.testimonials == []
  {
    before := new TestimonialsUI.Testimonials(store, false, TestimonialsUI.DefaultMaxItems);
    var admin := new TestimonialsAdmin(store);
    after := new TestimonialsUI.Testimonials(store, false, TestimonialsUI.DefaultMaxItems);
  }
}
