/** The history list and highlighted record owned by the application root (src/App.jsx). */
module History {
  import opened Wrappers
  import opened Records
  import opened Storage

  /** Some record of `h` carries `code`. */
  predicate HasCode(h: seq<LinkRecord>, code: string)
  {
    exists i | 0 <= i < |h| :: h[i].shortCode == code
  }

  /** How many records of `h` carry `code`. */
  function CountCode(h: seq<LinkRecord>, code: string): nat
  {
    if h == [] then 0
    else (if h[0].shortCode == code then 1 else 0) + CountCode(h[1..], code)
  }

  /** A code no record carries is counted zero times. */
  lemma {:induction false} CountAbsent(h: seq<LinkRecord>, code: string)
    requires !HasCode(h, code)
    ensures CountCode(h, code) == 0
    decreases |h|
  {
    if h != [] {
      CountAbsent(h[1..], code);
    }
  }

  /** No two records of `h` share a short code. */
  ghost predicate UniqueCodes(h: seq<LinkRecord>)
  {
    h == [] || (!HasCode(h[1..], h[0].shortCode) && UniqueCodes(h[1..]))
  }

  /** `r` is `h` with some records left out and the rest in their original order. */
  ghost predicate SubsequenceOf<T>(r: seq<T>, h: seq<T>)
    decreases |h|
  {
    if r == [] then true
    else if h == [] then false
    else (r[0] == h[0] && SubsequenceOf(r[1..], h[1..])) || SubsequenceOf(r, h[1..])
  }

  /** The records of `h` whose short code is not `code` (the filter both list operations use). */
  function WithoutCode(h: seq<LinkRecord>, code: string): (r: seq<LinkRecord>)
    ensures |r| <= |h|
    ensures !HasCode(r, code)
    ensures !HasCode(h, code) ==> r == h
  {
    if h == [] then []
    else if h[0].shortCode == code then WithoutCode(h[1..], code)
    else [h[0]] + WithoutCode(h[1..], code)
  }

  /** The new history after adding `item`: `item` first, then every other record with a different code. */
  function Upsert(h: seq<LinkRecord>, item: LinkRecord): (r: seq<LinkRecord>)
    ensures |r| >= 1 && r[0] == item
    ensures CountCode(r, item.shortCode) == 1
    ensures forall x :: x in r[1..] <==> x in h && x.shortCode != item.shortCode
    ensures forall x :: multiset(r[1..])[x] == if x.shortCode == item.shortCode then 0 else multiset(h)[x]
    ensures UniqueCodes(h) ==> UniqueCodes(r)
  {
    var rest := WithoutCode(h, item.shortCode);
    CountAbsent(rest, item.shortCode);
    WithoutCodeMembers(h, item.shortCode);
    WithoutCodeCounts(h, item.shortCode);
    WithoutCodeKeepsUniqueness(h, item.shortCode);
    assert ([item] + rest)[1..] == rest;
    [item] + rest
  }

  /** The highlight after removing `code`: cleared exactly when it carries `code`. */
  function HighlightAfterRemove(highlighted: Option<LinkRecord>, code: string): (r: Option<LinkRecord>)
    ensures r == None <==> highlighted == None || highlighted.value.shortCode == code
    ensures r != None ==> r == highlighted
  {
    if highlighted.Some? && highlighted.value.shortCode == code then None else highlighted
  }

  /** Filtering out a code keeps the remaining records in their original order. */
  lemma {:induction false} WithoutCodeKeepsOrder(h: seq<LinkRecord>, code: string)
    ensures SubsequenceOf(WithoutCode(h, code), h)
    decreases |h|
  {
    if h != [] {
      WithoutCodeKeepsOrder(h[1..], code);
      var r := WithoutCode(h, code);
      if h[0].shortCode != code {
        assert r[0] == h[0] && r[1..] == WithoutCode(h[1..], code);
      }
    }
  }

  /** Filtering distributes over concatenation: it touches each record independently of its neighbours. */
  lemma {:induction false} WithoutCodeAppend(a: seq<LinkRecord>, b: seq<LinkRecord>, code: string)
    ensures WithoutCode(a + b, code) == WithoutCode(a, code) + WithoutCode(b, code)
    decreases |a|
  {
    if a == [] {
      assert a + b == b;
    } else {
      var ab := a + b;
      assert ab[0] == a[0] && ab[1..] == a[1..] + b;
      WithoutCodeAppend(a[1..], b, code);
      if a[0].shortCode == code {
        calc {
          WithoutCode(ab, code);
          WithoutCode(a[1..] + b, code);
          WithoutCode(a[1..], code) + WithoutCode(b, code);
          WithoutCode(a, code) + WithoutCode(b, code);
        }
      } else {
        calc {
          WithoutCode(ab, code);
          [a[0]] + WithoutCode(a[1..] + b, code);
          [a[0]] + (WithoutCode(a[1..], code) + WithoutCode(b, code));
          ([a[0]] + WithoutCode(a[1..], code)) + WithoutCode(b, code);
          WithoutCode(a, code) + WithoutCode(b, code);
        }
      }
    }
  }

  /** A record survives filtering exactly when it was there and carries another code. */
  lemma {:induction false} WithoutCodeMembers(h: seq<LinkRecord>, code: string)
    ensures forall x :: x in WithoutCode(h, code) <==> x in h && x.shortCode != code
    decreases |h|
  {
    if h != [] {
      WithoutCodeMembers(h[1..], code);
      assert h == [h[0]] + h[1..];
    }
  }

  /** Filtering drops every copy of a record with the code and keeps every copy of each other record. */
  lemma {:induction false} WithoutCodeCounts(h: seq<LinkRecord>, code: string)
    ensures forall x :: multiset(WithoutCode(h, code))[x] == if x.shortCode == code then 0 else multiset(h)[x]
    decreases |h|
  {
    if h != [] {
      WithoutCodeCounts(h[1..], code);
      assert h == [h[0]] + h[1..];
    }
  }

  /** Removing a code twice is the same as removing it once. */
  lemma WithoutCodeIdempotent(h: seq<LinkRecord>, code: string)
    ensures WithoutCode(WithoutCode(h, code), code) == WithoutCode(h, code)
  {
  }

  /** Filtering keeps short codes unique. */
  lemma {:induction false} WithoutCodeKeepsUniqueness(h: seq<LinkRecord>, code: string)
    ensures UniqueCodes(h) ==> UniqueCodes(WithoutCode(h, code))
    decreases |h|
  {
    if h != [] {
      WithoutCodeKeepsUniqueness(h[1..], code);
      WithoutCodeMembers(h[1..], code);
      var rest := WithoutCode(h[1..], code);
      if h[0].shortCode != code && UniqueCodes(h) {
        var r := WithoutCode(h, code);
        assert r[0] == h[0] && r[1..] == rest;
      }
    }
  }

  /** The recursive uniqueness predicate means what it says: any two positions hold different codes. */
  lemma {:induction false} UniqueCodesPairwise(h: seq<LinkRecord>)
    ensures UniqueCodes(h) <==> forall i, j | 0 <= i < j < |h| :: h[i].shortCode != h[j].shortCode
    decreases |h|
  {
    if h != [] {
      UniqueCodesPairwise(h[1..]);
      if UniqueCodes(h) {
        forall i, j | 0 <= i < j < |h| ensures h[i].shortCode != h[j].shortCode {
          if i == 0 {
            assert h[j] == h[1..][j - 1];
          } else {
            assert h[i] == h[1..][i - 1] && h[j] == h[1..][j - 1];
          }
        }
      } else if !UniqueCodes(h[1..]) {
        var i, j :| 0 <= i < j < |h[1..]| && h[1..][i].shortCode == h[1..][j].shortCode;
        assert h[i + 1].shortCode == h[j + 1].shortCode;
      } else {
        var k :| 0 <= k < |h[1..]| && h[1..][k].shortCode == h[0].shortCode;
        assert h[0].shortCode == h[k + 1].shortCode;
      }
    }
  }

  /** Adding the same record twice gives the same history as adding it once. */
  lemma {:induction false} UpsertIdempotent(h: seq<LinkRecord>, item: LinkRecord)
    ensures Upsert(Upsert(h, item), item) == Upsert(h, item)
  {
    var once := Upsert(h, item);
    var rest := WithoutCode(h, item.shortCode);
    assert once == [item] + rest;
    assert once[1..] == rest;
    assert WithoutCode(once, item.shortCode) == WithoutCode(rest, item.shortCode);
  }

  /** Adding keeps every other record in its original relative order, after the new one. */
  lemma UpsertKeepsOrder(h: seq<LinkRecord>, item: LinkRecord)
    ensures SubsequenceOf(Upsert(h, item)[1..], h)
  {
    WithoutCodeKeepsOrder(h, item.shortCode);
    assert Upsert(h, item)[1..] == WithoutCode(h, item.shortCode);
  }

  /** App's two state cells and the write-back of `history` into local storage. */
  class App {
    var history: seq<LinkRecord>
    var highlighted: Option<LinkRecord>
    const store: LocalStore

    /** The write-back has run since `history` last changed. */
    ghost predicate Persisted()
      reads this, store
    {
      store.slot == Saved(history)
    }

    /** Mount: load the initial history, then the write-back runs once. */
    constructor (store: LocalStore)
      modifies store
      ensures this.store == store
      ensures history == Load(old(store.slot))
      ensures highlighted == None
      ensures Persisted()
    {
      this.store := store;
      history := Load(store.slot);
      highlighted := None;
      new;
      store.slot := Saved(history);
    }

    /** A newly created record goes to the front, replacing any with its code, and becomes the highlight. */
    method AddToHistory(item: LinkRecord)
      modifies this, store
      ensures history == Upsert(old(history), item)
      ensures highlighted == Some(item)
      ensures Persisted()
    {
      history := Upsert(history, item);
      highlighted := Some(item);
      store.slot := Saved(history);
    }

    /** A deleted code leaves the history; the highlight goes too if it carried that code. */
    method RemoveFromHistory(code: string)
      modifies this, store
      ensures history == WithoutCode(old(history), code)
      ensures highlighted == HighlightAfterRemove(old(highlighted), code)
      ensures Persisted()
    {
      history := WithoutCode(history, code);
      highlighted := HighlightAfterRemove(highlighted, code);
      store.slot := Saved(history);
    }

    /** Dismiss in the highlighted box: only the highlight is cleared, and nothing is written. */
    method Dismiss()
      modifies this`highlighted
      ensures highlighted == None
    {
      highlighted := None;
    }
  }
}
