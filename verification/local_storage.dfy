/**
 * The browser's `localStorage`: one synchronous, string-keyed store shared by every
 * component of the page. Values are kept structured rather than as JSON text.
 */
module LocalStorage {
  import opened Wrappers
  import opened TestimonialStore

  /** A stored value: a plain string, a numeric counter, or the testimonial list. */
  datatype Value = Text(s: string) | Count(n: int) | Records(items: seq<Testimonial>)

  class Store {
    var items: map<string, Value>

    constructor (initial: map<string, Value>)
      ensures items == initial
    {
      items := initial;
    }

    /** `localStorage.getItem(key)` */
    function GetItem(key: string): (v: Option<Value>)
      reads this
      ensures v.Some? <==> key in items
      ensures v.Some? ==> v.value == items[key]
    {
      if key in items then Some(items[key]) else None
    }

    /** `localStorage.setItem(key, value)` */
    method SetItem(key: string, value: Value)
      modifies this
      ensures items == old(items)[key := value]
    {
      items := items[key := value];
    }

    /** `localStorage.removeItem(key)` */
    method RemoveItem(key: string)
      modifies this
      ensures items == old(items) - {key}
    {
      items := items - {key};
    }
  }

  /** `parseInt(localStorage.getItem(key) || '0')`: an absent counter reads as 0. */
  function CountIn(items: map<string, Value>, key: string): (n: int)
    ensures key !in items ==> n == 0
    ensures key in items && items[key].Count? ==> n == items[key].n
  {
    if key in items && items[key].Count? then items[key].n else 0
  }

  /** `JSON.parse(localStorage.getItem(key))` when the key holds a testimonial list. */
  function RecordsIn(items: map<string, Value>, key: string): (r: Option<seq<Testimonial>>)
    ensures r.Some? <==> key in items && items[key].Records?
    ensures r.Some? ==> items[key] == Records(r.value)
  {
    if key in items && items[key].Records? then Some(items[key].items) else None
  }

  /**
   * The stored list, or the empty list when the key holds none: what both
   * `JSON.parse(getItem(key) || '[]')` and a load that keeps its initial `[]` read.
   */
  function RecordsOrEmpty(items: map<string, Value>, key: string): (list: seq<Testimonial>)
    ensures key !in items ==> list == []
    ensures key in items && items[key].Records? ==> list == items[key].items
  {
    match RecordsIn(items, key)
    case Some(saved) => saved
    case None => []
  }

  /** Writing a counter and reading it back gives the written number; other counters are untouched. */
  lemma CountAfterWrite(items: map<string, Value>, key: string, n: int, other: string)
    ensures CountIn(items[key := Count(n)], key) == n
    ensures other != key ==> CountIn(items[key := Count(n)], other) == CountIn(items, other)
  {
  }
}
