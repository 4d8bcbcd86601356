/** The queue viewer of show_queue_item and the callback data of its buttons
    (main.py:591-666): which item is shown for a requested position, which
    navigation buttons appear, and how the button data is read back. */
module QueueView {
  import opened Wrappers
  import opened Text
  import opened Posts

  /** `f'view_queue_{i}'`. */
  function ViewCallback(i: nat): string
  {
    "view_queue_" + NatToString(i)
  }

  /** `f'delete_{post_id}_{i}'`. */
  function DeleteCallback(id: string, i: nat): string
  {
    "delete_" + id + "_" + NatToString(i)
  }

  /** `int(query.data.split('_')[-1])` (main.py:597); `None` where `int()`
      raises. */
  function ParseViewIndex(data: string): Option<int>
  {
    var parts := Split(data, '_');
    PyInt(parts[|parts| - 1])
  }

  datatype DeleteRequest = DeleteRequest(id: string, index: int)

  /** `_, post_id, index_str = query.data.split('_')` then `int(index_str)`
      (main.py:658-659); `None` where either raises `ValueError`. */
  function ParseDelete(data: string): Option<DeleteRequest>
  {
    var parts := Split(data, '_');
    if |parts| != 3 then None
    else match PyInt(parts[2])
      case None => None
      case Some(i) => Some(DeleteRequest(parts[1], i))
  }

  /** `max(0, min(requested, n - 1))`. */
  function Clamp(requested: int, n: int): int
    requires n > 0
  {
    var upper := if requested < n - 1 then requested else n - 1;
    if 0 < upper then upper else 0
  }

  /** What the viewer shows: the position, the post, the data of the back,
      delete and forward buttons, and the caption. */
  datatype View = View(index: nat, post: Post, back: Option<string>, remove: string,
                       forward: Option<string>, caption: string)

  /** `f"Пост {i + 1} из {n}"`, followed by the post's own caption when it has
      a non-empty one. */
  function ViewCaption(i: nat, n: nat, userCaption: Option<string>): string
  {
    var head := "Пост " + NatToString(i + 1) + " из " + NatToString(n);
    if userCaption.Some? && userCaption.value != [] then head + "\n\n---\n" + userCaption.value else head
  }

  /** The view for a requested position; `None` for an empty queue. */
  function ShowQueueItem(queue: seq<Post>, requested: int): Option<View>
  {
    if queue == [] then None
    else
      var i := Clamp(requested, |queue|);
      var p := queue[i];
      Some(View(i, p,
                if i > 0 then Some(ViewCallback(i - 1)) else None,
                DeleteCallback(p.id, i),
                if i < |queue| - 1 then Some(ViewCallback(i + 1)) else None,
                ViewCaption(i, |queue|, p.media.caption)))
  }

  /** The clamped index lies in the queue, equals the request when that is in
      range, and is the nearer end otherwise. */
  lemma ClampIntoRange(requested: int, n: int)
    requires n > 0
    ensures 0 <= Clamp(requested, n) < n
    ensures 0 <= requested < n ==> Clamp(requested, n) == requested
    ensures requested < 0 ==> Clamp(requested, n) == 0
    ensures requested >= n ==> Clamp(requested, n) == n - 1
  {
  }

  /** The back button's data reads back as the previous position. */
  lemma ViewCallbackRoundTrip(i: nat)
    ensures ParseViewIndex(ViewCallback(i)) == Some(i)
  {
    var digits := NatToString(i);
    NatToStringHasNoSeparator(i, '_');
    assert ViewCallback(i) == "view" + ['_'] + ("queue" + ['_'] + digits);
    SplitAfterHead("view", '_', "queue" + ['_'] + digits);
    SplitAfterHead("queue", '_', digits);
    SplitWithoutSeparator(digits, '_');
    PyIntOfNatToString(i);
  }

  /** The delete button's data reads back as the post's id and position; post
      ids are `uuid4` strings, which never hold an underscore. */
  lemma DeleteCallbackRoundTrip(id: string, i: nat)
    requires '_' !in id
    ensures ParseDelete(DeleteCallback(id, i)) == Some(DeleteRequest(id, i))
  {
    var digits := NatToString(i);
    NatToStringHasNoSeparator(i, '_');
    assert DeleteCallback(id, i) == "delete" + ['_'] + (id + ['_'] + digits);
    SplitAfterHead("delete", '_', id + ['_'] + digits);
    SplitAfterHead(id, '_', digits);
    SplitWithoutSeparator(digits, '_');
    PyIntOfNatToString(i);
  }

  /** Delete data with an underscore-free id and index text reads back as
      that id and whatever `int()` makes of the index text. */
  lemma DeleteDataParts(id: string, t: string)
    requires '_' !in id && '_' !in t
    ensures ParseDelete("delete_" + id + "_" + t)
      == if PyInt(t).Some? then Some(DeleteRequest(id, PyInt(t).value)) else None
  {
    assert "delete_" + id + "_" + t == "delete" + ['_'] + (id + ['_'] + t);
    SplitAfterHead("delete", '_', id + ['_'] + t);
    SplitAfterHead(id, '_', t);
    SplitWithoutSeparator(t, '_');
  }

  /** View data with underscore-free index text reads back as whatever
      `int()` makes of that text. */
  lemma ViewDataParts(t: string)
    requires '_' !in t
    ensures ParseViewIndex("view_queue_" + t) == PyInt(t)
  {
    assert "view_queue_" + t == "view" + ['_'] + ("queue" + ['_'] + t);
    SplitAfterHead("view", '_', "queue" + ['_'] + t);
    SplitAfterHead("queue", '_', t);
    SplitWithoutSeparator(t, '_');
  }

  /** Delete data whose index carries an ASCII unit separator is refused, as
      `int()` refuses it. */
  lemma SeparatorInDeleteRefused()
    ensures ParseDelete("delete_a_\U{1f}3") == None
  {
    var t := "\U{1f}3";
    assert '_' !in t;
    assert "delete_a_\U{1f}3" == "delete_" + "a" + "_" + t;
    DeleteDataParts("a", t);
    IntKeepsSeparators();
  }

  /** The same separator in view data is refused too. */
  lemma SeparatorInViewRefused()
    ensures ParseViewIndex("view_queue_\U{1f}3") == None
  {
    var t := "\U{1f}3";
    assert '_' !in t;
    assert "view_queue_\U{1f}3" == "view_queue_" + t;
    ViewDataParts(t);
    IntKeepsSeparators();
  }

  /** The viewer shows the item at the clamped position; "back" appears
      exactly when there is an earlier item and "forward" exactly when there
      is a later one, and following either shows that neighbour without any
      clamping. */
  lemma Navigation(queue: seq<Post>, requested: int)
    requires queue != []
    ensures var v := ShowQueueItem(queue, requested).value;
      && v.index == Clamp(requested, |queue|) && v.post == queue[v.index]
      && (v.back.Some? <==> v.index > 0)
      && (v.forward.Some? <==> v.index < |queue| - 1)
      && (v.back.Some? ==> ParseViewIndex(v.back.value) == Some(v.index - 1)
                           && ShowQueueItem(queue, v.index - 1).value.index == v.index - 1)
      && (v.forward.Some? ==> ParseViewIndex(v.forward.value) == Some(v.index + 1)
                              && ShowQueueItem(queue, v.index + 1).value.index == v.index + 1)
  {
    var v := ShowQueueItem(queue, requested).value;
    ClampIntoRange(requested, |queue|);
    if v.index > 0 {
      ViewCallbackRoundTrip(v.index - 1);
    }
    if v.index < |queue| - 1 {
      ViewCallbackRoundTrip(v.index + 1);
    }
  }

  /** The delete button names the shown post and its position. */
  lemma DeleteButtonNamesShownPost(queue: seq<Post>, requested: int)
    requires queue != []
    requires forall k | 0 <= k < |queue| :: '_' !in queue[k].id
    ensures var v := ShowQueueItem(queue, requested).value;
      ParseDelete(v.remove) == Some(DeleteRequest(queue[v.index].id, v.index))
  {
    var v := ShowQueueItem(queue, requested).value;
    ClampIntoRange(requested, |queue|);
    DeleteCallbackRoundTrip(queue[v.index].id, v.index);
  }
}
