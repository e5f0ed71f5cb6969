/**
 * The public testimonials widget (src/components/Testimonials.jsx): the stored list,
 * or six built-in examples when nothing is stored, cut to the first few unless all
 * are wanted, and re-read when another tab changes storage.
 */
module TestimonialsUI {
  import opened Wrappers
  import opened JsBuiltins
  import opened TestimonialStore
  import opened LocalStorage

  /** The default `maxItems` prop. */
  const DefaultMaxItems: int := 3

  /** The quote of the `k`-th (from 0) built-in example. */
  function SeedQuote(k: nat): string {
    if k == 0 then
      "INARA TECH transformed our digital presence completely. Their innovative approach and attention to detail exceeded our expectations. The team delivered exceptional results that significantly boosted our online engagement."
    else if k == 1 then
      "Working with INARA TECH was a game-changer for our business. Their creative solutions and technical expertise helped us achieve remarkable growth. Highly recommended for anyone looking for quality digital services."
    else if k == 2 then
      "The level of professionalism and creativity at INARA TECH is outstanding. They understood our vision perfectly and brought it to life with amazing results. Our website traffic increased by 300% after their redesign."
    else if k == 3 then
      "INARA TECH's mobile app development service was exceptional. The app they created for us has significantly improved our customer engagement and sales. Their support and maintenance services are also top-notch."
    else if k == 4 then
      "The cloud-native architecture solution provided by INARA TECH was exactly what we needed. Their expertise in modern technologies helped us scale efficiently. The team is knowledgeable and responsive."
    else
      "INARA TECH helped us build a robust digital infrastructure from scratch. Their consulting services were invaluable in making the right technology choices. We couldn't have done it without them."
  }

  /** The `k`-th (from 0) of the six examples shown when storage holds no list, around its quote. */
  function SeedRecord(k: nat, quote: string): (t: Testimonial)
    ensures k < 6 ==> t.id == k + 1
    ensures t.rating == 5 && t.content == quote && t.avatar in AvatarOptions
    ensures t.featured <==> k < 3
  {
    if k == 0 then
      Testimonial(1, "Sarah Johnson", "TechStart Inc.", "CEO", quote,
        5, "\U{1F469}\U{200D}\U{1F4BC}", true)
    else if k == 1 then
      Testimonial(2, "Michael Chen", "Digital Solutions Ltd.", "Marketing Director", quote,
        5, "\U{1F468}\U{200D}\U{1F4BB}", true)
    else if k == 2 then
      Testimonial(3, "Emily Rodriguez", "Creative Agency", "Founder", quote,
        5, "\U{1F469}\U{200D}\U{1F3A8}", true)
    else if k == 3 then
      Testimonial(4, "David Kumar", "E-commerce Plus", "Operations Manager", quote,
        5, "\U{1F468}\U{200D}\U{1F4BC}", false)
    else if k == 4 then
      Testimonial(5, "Lisa Thompson", "HealthTech Solutions", "CTO", quote,
        5, "\U{1F469}\U{200D}\U{2695}\U{FE0F}", false)
    else
      Testimonial(6, "Alex Patel", "StartupHub", "Co-founder", quote,
        5, "\U{1F468}\U{200D}\U{1F680}", false)
  }

  /** The examples shown when storage holds no list; they are never written to storage. */
  function SeedTestimonials(): (seed: seq<Testimonial>)
    ensures |seed| == 6 && UniqueIds(seed) && AllWellFormed(seed)
    ensures forall i :: 0 <= i < |seed| ==>
      seed[i].id == i + 1 && seed[i].rating == 5 && (seed[i].featured <==> i < 3)
  {
    seq(6, k requires 0 <= k < 6 => SeedRecord(k, SeedQuote(k)))
  }

  /** The list the widget starts with: the stored one if any, else the examples. */
  function Loaded(items: map<string, Value>): (list: seq<Testimonial>)
    ensures StorageKey in items && items[StorageKey].Records? ==> list == items[StorageKey].items
    ensures StorageKey !in items ==> list == SeedTestimonials()
  {
    match RecordsIn(items, StorageKey)
    case Some(saved) => saved
    case None => SeedTestimonials()
  }

  /** `showAll ? testimonials : testimonials.slice(0, maxItems)` */
  function Displayed(list: seq<Testimonial>, showAll: bool, maxItems: int): (shown: seq<Testimonial>)
    ensures |shown| <= |list| && shown == list[..|shown|]
    ensures showAll ==> shown == list
    ensures !showAll && 0 <= maxItems ==> |shown| == if maxItems < |list| then maxItems else |list|
  {
    if showAll then list else SliceTo(list, maxItems)
  }

  /** With the default props the widget shows at most three records, the first ones. */
  lemma DefaultShowsAtMostThree(list: seq<Testimonial>)
    ensures |Displayed(list, false, DefaultMaxItems)| <= 3
    ensures |list| >= 3 ==> Displayed(list, false, DefaultMaxItems) == list[..3]
  {
  }

  class Testimonials {
    const store: Store
    const showAll: bool
    const maxItems: int
    var testimonials: seq<Testimonial>

    /** Mounting: the load effect; storage is only read. */
    constructor (store: Store, showAll: bool, maxItems: int)
      ensures this.store == store && this.showAll == showAll && this.maxItems == maxItems
      ensures testimonials == Loaded(store.items)
    {
      this.store := store;
      this.showAll := showAll;
      this.maxItems := maxItems;
      testimonials := Loaded(store.items);
    }

    /** The `storage` event listener: take the stored list if there is one, else keep the current one. */
    method HandleStorageChange()
      modifies this`testimonials
      ensures testimonials == match RecordsIn(store.items, StorageKey)
                              case Some(saved) => saved
                              case None => old(testimonials)
    {
      var saved := RecordsIn(store.items, StorageKey);
      if saved.Some? {
        testimonials := saved.value;
      }
    }

    /** `displayTestimonials` */
    function DisplayTestimonials(): (shown: seq<Testimonial>)
      reads this
      ensures shown == Displayed(testimonials, showAll, maxItems)
    {
      Displayed(testimonials, showAll, maxItems)
    }
  }
}
