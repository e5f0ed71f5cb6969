/**
 * The site visit counter in the footer (src/components/Footer.jsx): every page
 * load reads `site_total_views` (absent is 0), stores it one higher and shows the
 * new value; the reset buttons remove the key and show 0.
 */
module SiteFooter {
  import opened LocalStorage

  const SiteViewsKey: string := "site_total_views"

  /** The storage after one page load: the counter one higher, every other key as it was. */
  function AfterVisit(items: map<string, Value>): (after: map<string, Value>)
    ensures CountIn(after, SiteViewsKey) == CountIn(items, SiteViewsKey) + 1
    ensures forall k :: k != SiteViewsKey ==> (k in after <==> k in items)
    ensures forall k :: k != SiteViewsKey && k in items ==> after[k] == items[k]
  {
    items[SiteViewsKey := Count(CountIn(items, SiteViewsKey) + 1)]
  }

  /** The storage after a reset: the counter gone, every other key as it was. */
  function AfterReset(items: map<string, Value>): (after: map<string, Value>)
    ensures SiteViewsKey !in after && CountIn(after, SiteViewsKey) == 0
    ensures forall k :: k != SiteViewsKey ==> (k in after <==> k in items)
    ensures forall k :: k != SiteViewsKey && k in items ==> after[k] == items[k]
  {
    items - {SiteViewsKey}
  }

  /** The storage after `n` page loads. */
  function Visits(items: map<string, Value>, n: nat): map<string, Value> {
    if n == 0 then items else AfterVisit(Visits(items, n - 1))
  }

  /** `n` page loads add exactly `n` to the counter. */
  lemma {:induction false} VisitsAddUp(items: map<string, Value>, n: nat)
    ensures CountIn(Visits(items, n), SiteViewsKey) == CountIn(items, SiteViewsKey) + n
  {
    if n > 0 {
      VisitsAddUp(items, n - 1);
    }
  }

  /** After a reset the counter starts again: the `n`-th page load shows `n`. */
  lemma ResetStartsAfresh(items: map<string, Value>, n: nat)
    ensures CountIn(Visits(AfterReset(items), n), SiteViewsKey) == n
  {
    VisitsAddUp(AfterReset(items), n);
  }

  class Footer {
    /** `siteViews`, the number shown. */
    var siteViews: int
    const store: Store

    /** Mounting runs `trackSiteView` once and shows the value it stored. */
    constructor (store: Store)
      modifies store
      ensures this.store == store
      ensures store.items == AfterVisit(old(store.items))
      ensures siteViews == CountIn(store.items, SiteViewsKey)
    {
      this.store := store;
      siteViews := 0;
      new;
      var newViews := CountIn(store.items, SiteViewsKey) + 1;
      store.SetItem(SiteViewsKey, Count(newViews));
      siteViews := newViews;
    }

    /** Either "Reset" button: remove the key, show 0. */
    method Reset()
      modifies this, store
      ensures store.items == AfterReset(old(store.items))
      ensures siteViews == 0 == CountIn(store.items, SiteViewsKey)
    {
      store.RemoveItem(SiteViewsKey);
      siteViews := 0;
    }
  }

  /** Reset, then load a page again: the footer shows 1. */
  method ResetThenReload(footer: Footer) returns (again: Footer)
    modifies footer, footer.store
    ensures again.store == footer.store
    ensures again.siteViews == 1
  {
    footer.Reset();
    again := new Footer(footer.store);
  }
}
