/** The bookmark list of components/bookmarked-products.tsx: a list of
    tracked products held as view state, replaced by a new list when a
    bookmark is removed or its price alert is switched, and rendered as one
    card per bookmark or, when empty, as an empty-state message. */
module BookmarkedProducts {
  import opened Types
  import Lists

  datatype Bookmark = Bookmark(
    id: string,
    name: string,
    image: string,
    currentPrice: nat,
    lowestPrice: nat,
    store: string,
    priceAlert: bool,
    targetPrice: nat)

  /** The three bookmarks the view starts with. */
  const InitialBookmarks: seq<Bookmark> := [
    Bookmark("1", "iPhone 15 Pro (128GB, Black)", "/placeholder.svg?height=80&width=80", 999, 949, "Amazon", true, 950),
    Bookmark("2", "Sony PlayStation 5 Slim Digital Edition", "/placeholder.svg?height=80&width=80", 449, 399, "Best Buy", false, 400),
    Bookmark("3", "Samsung Galaxy S24 Ultra", "/placeholder.svg?height=80&width=80", 1199, 1099, "Samsung", true, 1000)]

  /** No two bookmarks share an id. */
  predicate IdsDistinct(bs: seq<Bookmark>)
  {
    forall i, j :: 0 <= i < j < |bs| ==> bs[i].id != bs[j].id
  }

  /** The filter callback `(bookmark) => bookmark.id !== id` as a function value. */
  function OtherId(id: string): Bookmark -> bool
  {
    (b: Bookmark) => b.id != id
  }

  /** `bookmarks.filter((bookmark) => bookmark.id !== id)`. */
  function Without(bs: seq<Bookmark>, id: string): (r: seq<Bookmark>)
    ensures forall b :: b in r <==> b in bs && b.id != id
    ensures |r| <= |bs|
  {
    Lists.Select(bs, OtherId(id))
  }

  /** Removal works piecewise, so the kept entries stay in their order. */
  lemma WithoutAppend(a: seq<Bookmark>, b: seq<Bookmark>, id: string)
    ensures Without(a + b, id) == Without(a, id) + Without(b, id)
  {
    Lists.SelectAppend(a, b, OtherId(id));
  }

  /** Removing an id no bookmark has changes nothing. */
  lemma WithoutAbsent(bs: seq<Bookmark>, id: string)
    requires forall i :: 0 <= i < |bs| ==> bs[i].id != id
    ensures Without(bs, id) == bs
  {
    Lists.SelectAll(bs, OtherId(id));
  }

  /** Removing the id of the only bookmark that has it drops exactly that one. */
  lemma RemoveOne(a: seq<Bookmark>, x: Bookmark, b: seq<Bookmark>)
    requires IdsDistinct(a + [x] + b)
    ensures Without(a + [x] + b, x.id) == a + b
  {
    var s := a + [x] + b;
    assert s[|a|] == x;
    forall i | 0 <= i < |a| ensures a[i].id != x.id {
      assert s[i] == a[i];
    }
    forall i | 0 <= i < |b| ensures b[i].id != x.id {
      assert s[|a| + 1 + i] == b[i];
    }
    calc {
      Without(a + [x] + b, x.id);
      { WithoutAppend(a + [x], b, x.id); }
      Without(a + [x], x.id) + Without(b, x.id);
      { WithoutAppend(a, [x], x.id); }
      Without(a, x.id) + Without([x], x.id) + Without(b, x.id);
      { WithoutAbsent(a, x.id); WithoutAbsent(b, x.id); Lists.SelectSingle(x, OtherId(x.id)); }
      a + [] + b;
    }
    assert a + [] + b == a + b;
  }

  /** With distinct ids, removing the id at position i drops exactly that
      bookmark. */
  lemma RemoveAt(bs: seq<Bookmark>, i: nat)
    requires IdsDistinct(bs) && i < |bs|
    ensures Without(bs, bs[i].id) == bs[..i] + bs[i + 1..]
  {
    var a, x, b := bs[..i], bs[i], bs[i + 1..];
    assert a + [x] + b == bs;
    RemoveOne(a, x, b);
  }

  lemma {:induction false} WithoutKeepsIdsDistinct(bs: seq<Bookmark>, id: string)
    requires IdsDistinct(bs)
    ensures IdsDistinct(Without(bs, id))
  {
    if bs != [] {
      WithoutKeepsIdsDistinct(bs[1..], id);
      var rest := Without(bs[1..], id);
      forall k | 0 <= k < |rest| ensures rest[k].id != bs[0].id {
        assert rest[k] in bs[1..];
        var m :| 0 <= m < |bs[1..]| && bs[1..][m] == rest[k];
        assert bs[m + 1] == rest[k];
      }
    }
  }

  /** The bookmark with its alert switched. */
  function Flipped(b: Bookmark): Bookmark
  {
    b.(priceAlert := !b.priceAlert)
  }

  /** `bookmarks.map(...)`: the alert of every bookmark with the id switched.
      Positions and every other field stay; only the matching alerts change. */
  function Toggled(bs: seq<Bookmark>, id: string): (r: seq<Bookmark>)
    ensures |r| == |bs|
    ensures forall i :: 0 <= i < |bs| ==> r[i] == bs[i].(priceAlert := r[i].priceAlert)
    ensures forall i :: 0 <= i < |bs| ==> (r[i].priceAlert != bs[i].priceAlert <==> bs[i].id == id)
  {
    seq(|bs|, i requires 0 <= i < |bs| => if bs[i].id == id then Flipped(bs[i]) else bs[i])
  }

  /** Switching the same alert twice restores the list. */
  lemma ToggleTwice(bs: seq<Bookmark>, id: string)
    ensures Toggled(Toggled(bs, id), id) == bs
  {
    var once := Toggled(bs, id);
    var twice := Toggled(once, id);
    forall i | 0 <= i < |bs| ensures twice[i] == bs[i] {
      assert once[i].id == bs[i].id;
    }
  }

  /** Switching alerts on different ids commutes. */
  lemma ToggleCommutes(bs: seq<Bookmark>, id1: string, id2: string)
    ensures Toggled(Toggled(bs, id1), id2) == Toggled(Toggled(bs, id2), id1)
  {
    var a, b := Toggled(Toggled(bs, id1), id2), Toggled(Toggled(bs, id2), id1);
    forall i | 0 <= i < |bs| ensures a[i] == b[i] {
      assert Toggled(bs, id1)[i].id == bs[i].id && Toggled(bs, id2)[i].id == bs[i].id;
    }
  }

  /** The bookmark state. Its one invariant: ids stay distinct. */
  class BookmarkList {
    var bookmarks: seq<Bookmark>

    predicate Valid()
      reads this
    {
      IdsDistinct(bookmarks)
    }

    constructor ()
      ensures bookmarks == InitialBookmarks
      ensures Valid()
    {
      bookmarks := InitialBookmarks;
    }

    /** Drops the bookmark with the id, if there is one: ids being distinct,
        exactly one entry goes when the id is present and none otherwise. */
    method RemoveBookmark(id: string)
      requires Valid()
      modifies this
      ensures bookmarks == Without(old(bookmarks), id)
      ensures forall b :: b in bookmarks ==> b.id != id
      ensures forall i :: 0 <= i < |old(bookmarks)| && old(bookmarks)[i].id == id ==>
        bookmarks == old(bookmarks)[..i] + old(bookmarks)[i + 1..]
      ensures (forall i :: 0 <= i < |old(bookmarks)| ==> old(bookmarks)[i].id != id) ==> bookmarks == old(bookmarks)
      ensures Valid()
    {
      forall i | 0 <= i < |bookmarks| && bookmarks[i].id == id
        ensures Without(bookmarks, id) == bookmarks[..i] + bookmarks[i + 1..]
      {
        RemoveAt(bookmarks, i);
      }
      if forall i :: 0 <= i < |bookmarks| ==> bookmarks[i].id != id {
        WithoutAbsent(bookmarks, id);
      }
      WithoutKeepsIdsDistinct(bookmarks, id);
      bookmarks := Without(bookmarks, id);
    }

    /** Switches the price alert of the bookmark with the id. */
    method TogglePriceAlert(id: string)
      requires Valid()
      modifies this
      ensures bookmarks == Toggled(old(bookmarks), id)
      ensures Valid()
    {
      bookmarks := Toggled(bookmarks, id);
    }
  }

  /** The label next to the alert switch. */
  datatype AlertLabel = AlertAt(targetPrice: nat) | AlertOff

  /** What a card shows about prices: the current price, the "Lowest: $x"
      note, the "Lowest Price" badge and the alert label. */
  datatype Card = Card(
    id: string,
    name: string,
    currentPrice: nat,
    lowestNote: Option<nat>,
    lowestBadge: bool,
    alert: AlertLabel)

  function CardOf(b: Bookmark): Card
  {
    Card(
      b.id,
      b.name,
      b.currentPrice,
      if b.currentPrice > b.lowestPrice then Some(b.lowestPrice) else None,
      b.currentPrice == b.lowestPrice,
      if b.priceAlert then AlertAt(b.targetPrice) else AlertOff)
  }

  /** The note shows exactly when the price is above its lowest, the badge
      exactly when it equals it; never both, and neither below the lowest. */
  lemma CardPriceMarks(b: Bookmark)
    ensures CardOf(b).lowestNote.Some? <==> b.currentPrice > b.lowestPrice
    ensures CardOf(b).lowestNote.Some? ==> CardOf(b).lowestNote.value == b.lowestPrice
    ensures CardOf(b).lowestBadge <==> b.currentPrice == b.lowestPrice
    ensures !(CardOf(b).lowestNote.Some? && CardOf(b).lowestBadge)
    ensures b.currentPrice < b.lowestPrice ==> CardOf(b).lowestNote.None? && !CardOf(b).lowestBadge
    ensures CardOf(b).alert.AlertAt? <==> b.priceAlert
  {
  }

  /** What the view renders. */
  datatype View = EmptyState | Cards(cards: seq<Card>)

  function Render(bs: seq<Bookmark>): View
  {
    if |bs| == 0 then EmptyState else Cards(seq(|bs|, i requires 0 <= i < |bs| => CardOf(bs[i])))
  }

  /** An empty list renders the empty state; otherwise one card per bookmark,
      in order. */
  lemma RenderShape(bs: seq<Bookmark>)
    ensures Render(bs) == EmptyState <==> bs == []
    ensures Render(bs).Cards? ==>
      (|Render(bs).cards| == |bs| && forall i :: 0 <= i < |bs| ==> Render(bs).cards[i] == CardOf(bs[i]))
  {
  }

  /** After removing a bookmark, no card shows it. */
  lemma RemovedNotRendered(bs: seq<Bookmark>, id: string)
    ensures Render(Without(bs, id)).Cards? ==>
      forall c :: c in Render(Without(bs, id)).cards ==> c.id != id
  {
    var r := Without(bs, id);
    if Render(r).Cards? {
      forall c | c in Render(r).cards ensures c.id != id {
        var i :| 0 <= i < |r| && Render(r).cards[i] == c;
        assert r[i] in r;
      }
    }
  }
}
