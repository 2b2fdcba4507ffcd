/**
 * The debug-widget registry (DebugWindowsManager with its DebugWidgets /
 * DebugWindow front ends). Widgets are draw entries kept in a two-level table
 * domain -> id -> entry; every entry's construction also records its category
 * in a per-domain category index that only Clear ever empties. A draw pass
 * opens one window per domain and one tab per category, and invokes the
 * entries of the tabs that are open.
 *
 * The three copies in the repository share this logic; they differ only in
 * what the draw pass returns (a flag, a callback status, or nothing). ImGui's
 * "is this tab open" answer is the oracle `tabOpen(domain, category)`, and a
 * draw pass reports the set of (domain, id) entries whose delegate it invoked.
 */
module DebugRegistry {
  import opened Wrappers
  import opened Callbacks

  /** One registered widget: the window and tab it is drawn in and its draw delegate. */
  datatype DrawEntry<A> = DrawEntry(domain: string, category: string, delegate: A)

  /** A set of names is empty or has a member; lets a loop pick the next name still to visit. */
  lemma EmptyOrMemberName(s: set<string>)
    ensures s == {} || exists x :: x in s
  {
    if forall x :: x !in s {
      assert s == {};
    }
  }

  /** The entries of one domain's table whose category is `category`. */
  ghost function InCategory<A>(table: map<int, DrawEntry<A>>, category: string): set<int> {
    set id | id in table && table[id].category == category
  }

  /** Reference definition of a draw pass: every entry whose category tab is open. */
  ghost function Visible<A>(entries: map<string, map<int, DrawEntry<A>>>, tabOpen: (string, string) -> bool): set<(string, int)> {
    set d, id | d in entries && id in entries[d] && tabOpen(d, entries[d][id].category) :: (d, id)
  }

  /** The table after storing `e` at (domain, id): the domain's table is created if missing, an old entry is replaced. */
  function Upserted<A>(entries: map<string, map<int, DrawEntry<A>>>, domain: string, id: int, e: DrawEntry<A>): (r: map<string, map<int, DrawEntry<A>>>)
    ensures r.Keys == entries.Keys + {domain}
    ensures r[domain].Keys == (if domain in entries then entries[domain].Keys else {}) + {id}
    ensures r[domain][id] == e
    ensures forall i :: i in r[domain] && i != id ==> r[domain][i] == entries[domain][i]
    ensures forall d :: d in entries && d != domain ==> r[d] == entries[d]
  {
    entries[domain := (if domain in entries then entries[domain] else map[])[id := e]]
  }

  /** Registering the same (domain, id) twice leaves one entry, the latest. */
  lemma UpsertSameKeyTwice<A>(entries: map<string, map<int, DrawEntry<A>>>, domain: string, id: int, e1: DrawEntry<A>, e2: DrawEntry<A>)
    ensures Upserted(Upserted(entries, domain, id, e1), domain, id, e2) == Upserted(entries, domain, id, e2)
  {
    var once, twice := Upserted(entries, domain, id, e2), Upserted(Upserted(entries, domain, id, e1), domain, id, e2);
    assert twice[domain] == once[domain];
  }

  /** A freshly stored entry is drawn exactly when its own category tab is open. */
  lemma UpsertedVisibility<A>(entries: map<string, map<int, DrawEntry<A>>>, domain: string, id: int, e: DrawEntry<A>, tabOpen: (string, string) -> bool)
    ensures (domain, id) in Visible(Upserted(entries, domain, id, e), tabOpen) <==> tabOpen(domain, e.category)
  {
    var r: map<string, map<int, DrawEntry<A>>> := Upserted(entries, domain, id, e);
    if tabOpen(domain, e.category) {
      assert domain in r && id in r[domain] && tabOpen(domain, r[domain][id].category);
    }
  }

  /** A removed entry is never drawn, and the other entries keep their visibility. */
  lemma RemovedInvisible<A>(entries: map<string, map<int, DrawEntry<A>>>, domain: string, id: int, tabOpen: (string, string) -> bool)
    requires domain in entries
    ensures Visible(entries[domain := entries[domain] - {id}], tabOpen) == Visible(entries, tabOpen) - {(domain, id)}
  {
    var r: map<string, map<int, DrawEntry<A>>> := entries[domain := entries[domain] - {id}];
    forall p | p in Visible(entries, tabOpen) - {(domain, id)}
      ensures p in Visible(r, tabOpen)
    {
      var d, i := p.0, p.1;
      assert d in r && i in r[d] && tabOpen(d, r[d][i].category);
    }
  }

  class DebugWindowsManager<A> {
    /** DrawEntries: domain -> id -> entry. */
    var entries: map<string, map<int, DrawEntry<A>>>
    /** DrawEntry's category index: domain -> categories ever registered there. */
    var categories: map<string, set<string>>

    ghost predicate Valid()
      reads this
    {
      && entries.Keys == categories.Keys
      && forall d, id :: d in entries && id in entries[d] ==>
           entries[d][id].domain == d && entries[d][id].category in categories[d]
    }

    constructor ()
      ensures Valid()
      ensures entries == map[] && categories == map[]
    {
      entries := map[];
      categories := map[];
    }

    /** The domain's categories, none when the domain has none yet. */
    function CategoriesOf(domain: string): (cs: set<string>)
      reads this
      ensures domain in categories ==> cs == categories[domain]
      ensures domain !in categories ==> cs == {}
    {
      if domain in categories then categories[domain] else {}
    }

    /** The DrawEntry constructor: records its category under its domain, creating the domain's set if missing. */
    method NewEntry(domain: string, category: string, delegate: A) returns (e: DrawEntry<A>)
      modifies this
      ensures e == DrawEntry(domain, category, delegate)
      ensures categories == old(categories)[domain := old(CategoriesOf(domain)) + {category}]
      ensures entries == old(entries)
    {
      if domain !in categories {
        categories := categories[domain := {}];
      }
      if category !in categories[domain] {
        categories := categories[domain := categories[domain] + {category}];
      } else {
        assert categories[domain] + {category} == categories[domain];
        assert categories[domain := categories[domain]] == categories;
      }
      e := DrawEntry(domain, category, delegate);
    }

    /**
     * `Draw(domain, category, id, delegate)`: create the domain's table if
     * missing, then insert or replace the entry at `id`.
     */
    method Upsert(domain: string, category: string, id: int, delegate: A)
      requires Valid()
      modifies this
      ensures Valid()
      ensures entries == Upserted(old(entries), domain, id, DrawEntry(domain, category, delegate))
      ensures categories == old(categories)[domain := old(CategoriesOf(domain)) + {category}]
    {
      if domain !in entries {
        entries := entries[domain := map[]];
      }
      var e := NewEntry(domain, category, delegate);
      entries := entries[domain := entries[domain][id := e]];
    }

    /**
     * The label-keyed widgets (Button, CheckBox, sliders, TextInput, ...):
     * the id is the label's hash code, returned to the caller. `hash` stands
     * for String.GetHashCode.
     */
    method LabelWidget(domain: string, category: string, widgetLabel: string, hash: string -> int, delegate: A) returns (id: int)
      requires Valid()
      modifies this
      ensures Valid()
      ensures id == hash(widgetLabel)
      ensures entries == Upserted(old(entries), domain, id, DrawEntry(domain, category, delegate))
      ensures categories == old(categories)[domain := old(CategoriesOf(domain)) + {category}]
    {
      id := hash(widgetLabel);
      Upsert(domain, category, id, delegate);
    }

    /** `Text(domain, category, id, text)`: stored under the caller's id, which is returned unchanged. */
    method Text(domain: string, category: string, id: int, delegate: A) returns (r: int)
      requires Valid()
      modifies this
      ensures Valid()
      ensures r == id
      ensures entries == Upserted(old(entries), domain, id, DrawEntry(domain, category, delegate))
      ensures categories == old(categories)[domain := old(CategoriesOf(domain)) + {category}]
    {
      Upsert(domain, category, id, delegate);
      r := id;
    }

    /**
     * `Remove(domain, id)`: the dictionary indexer throws for an unknown
     * domain; an absent id is a no-op. The category index is left alone.
     */
    method Remove(domain: string, id: int) returns (r: Result<bool>)
      requires Valid()
      modifies this
      ensures Valid()
      ensures r.Err? <==> domain !in old(entries)
      ensures r.Err? ==> r.error == KeyNotFound && entries == old(entries)
      ensures r.Ok? ==> r.value == (id in old(entries)[domain])
      ensures r.Ok? ==> entries == old(entries)[domain := old(entries)[domain] - {id}]
      ensures categories == old(categories)
    {
      if domain !in entries {
        return Err(KeyNotFound);
      }
      r := Ok(id in entries[domain]);
      entries := entries[domain := entries[domain] - {id}];
    }

    method Clear()
      modifies this
      ensures Valid()
      ensures entries == map[] && categories == map[]
    {
      entries := map[];
      categories := map[];
    }

    /** DrawCategory: invoke every entry of the domain in the given category. */
    method DrawCategory(domain: string, category: string, anyDrawn: bool) returns (drawn: set<int>, anyDrawn': bool)
      requires Valid() && domain in entries
      ensures drawn == InCategory(entries[domain], category)
      ensures anyDrawn' == (anyDrawn || drawn != {})
    {
      var table := entries[domain];
      var todo := table.Keys;
      ghost var done: set<int> := {};
      drawn, anyDrawn' := {}, anyDrawn;
      while todo != {}
        invariant todo + done == table.Keys && todo !! done
        invariant drawn == set id | id in done && table[id].category == category
        invariant anyDrawn' == (anyDrawn || drawn != {})
        decreases todo
      {
        EmptyOrMember(todo);
        var id :| id in todo;
        if table[id].category == category {
          drawn := drawn + {id};
          anyDrawn' := true;
        }
        todo := todo - {id};
        done := done + {id};
      }
    }

    /** DrawCategories: draw each category whose tab ImGui reports open. */
    method DrawCategories(domain: string, tabOpen: (string, string) -> bool, anyDrawn: bool) returns (drawn: set<int>, anyDrawn': bool)
      requires Valid() && domain in entries
      ensures drawn == set id | id in entries[domain] && tabOpen(domain, entries[domain][id].category)
      ensures anyDrawn' == (anyDrawn || drawn != {})
    {
      var table := entries[domain];
      var todo := categories[domain];
      ghost var done: set<string> := {};
      drawn, anyDrawn' := {}, anyDrawn;
      while todo != {}
        invariant todo + done == categories[domain] && todo !! done
        invariant drawn == set id | id in table && table[id].category in done && tabOpen(domain, table[id].category)
        invariant anyDrawn' == (anyDrawn || drawn != {})
        decreases todo
      {
        EmptyOrMemberName(todo);
        var category :| category in todo;
        if tabOpen(domain, category) {
          var ids;
          ids, anyDrawn' := DrawCategory(domain, category, anyDrawn');
          drawn := drawn + ids;
        }
        todo := todo - {category};
        done := done + {category};
      }
      assert forall id :: id in table ==> table[id].category in done;
    }

    /** The draw pass: one window per domain of the category index. */
    method Draw(tabOpen: (string, string) -> bool) returns (anyDrawn: bool, drawn: set<(string, int)>)
      requires Valid()
      ensures drawn == Visible(entries, tabOpen)
      ensures anyDrawn <==> drawn != {}
    {
      var todo := categories.Keys;
      ghost var done: set<string> := {};
      anyDrawn, drawn := false, {};
      while todo != {}
        invariant todo + done == entries.Keys && todo !! done
        invariant drawn == set d, id | d in done && id in entries[d] && tabOpen(d, entries[d][id].category) :: (d, id)
        invariant anyDrawn <==> drawn != {}
        decreases todo
      {
        EmptyOrMemberName(todo);
        var domain :| domain in todo;
        var ids;
        ids, anyDrawn := DrawCategories(domain, tabOpen, anyDrawn);
        var pairs := set id | id in ids :: (domain, id);
        if ids != {} {
          EmptyOrMember(ids);
          var i :| i in ids;
          assert (domain, i) in pairs;
        }
        drawn := drawn + pairs;
        todo := todo - {domain};
        done := done + {domain};
      }
    }

    /** The status-returning draw pass of the VSImGui copy: it never asks to grab the mouse. */
    method DrawStatus(tabOpen: (string, string) -> bool) returns (s: Status)
      requires Valid()
      ensures s != GrabMouse
      ensures s == Closed <==> Visible(entries, tabOpen) == {}
    {
      var anyDrawn, _ := Draw(tabOpen);
      s := if anyDrawn then DontGrabMouse else Closed;
    }
  }
}
