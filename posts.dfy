/** What the bot publishes: media records, the queue of pending posts, the two
    special slots, and which Telegram send call a record turns into. */
module Posts {
  import opened Wrappers

  /** A stored post record (`post_data`): its `type`, `file_id` and optional
      `caption`. */
  datatype Media = Media(kind: string, fileId: string, caption: Option<string>)

  /** A row of the queue: a generated id and its record. */
  datatype Post = Post(id: string, media: Media)

  /** The two special slots and the daily instants at which they fire. */
  datatype Slot = GoodMorning | GoodNight

  /** The three Telegram send calls. */
  datatype SendMethod = SendPhoto | SendVideo | SendAnimation

  /** One call handed to the transport. */
  datatype Delivery = Delivery(call: SendMethod, fileId: string, caption: Option<string>)

  /** The record `type` each send call is chosen for. */
  function KindOf(m: SendMethod): string
  {
    match m
    case SendPhoto => "photo"
    case SendVideo => "video"
    case SendAnimation => "animation"
  }

  /** The send call a record is published with (the if/elif chains of
      main.py:426-432, 450-456 and 472-477); `None` for an unrecognised
      `type`, which sends nothing. */
  function Dispatch(m: Media): (d: Option<Delivery>)
    ensures d.Some? <==> m.kind in {"photo", "video", "animation"}
    ensures d.Some? ==> KindOf(d.value.call) == m.kind
    ensures d.Some? ==> d.value.fileId == m.fileId && d.value.caption == m.caption
  {
    if m.kind == "photo" then Some(Delivery(SendPhoto, m.fileId, m.caption))
    else if m.kind == "video" then Some(Delivery(SendVideo, m.fileId, m.caption))
    else if m.kind == "animation" then Some(Delivery(SendAnimation, m.fileId, m.caption))
    else None
  }

  /** A publication succeeds unless the send call raised; when no call is made
      there is nothing to raise. */
  predicate Published(d: Option<Delivery>, sendOk: bool)
  {
    d.None? || sendOk
  }

  /** The greeting appended to each special slot's caption. */
  function Greeting(slot: Slot): string
  {
    match slot
    case GoodMorning => "Доброе утро!"
    case GoodNight => "Спокойной ночи!"
  }

  /** The caption stored for a special post (main.py:566, 573): the user's
      caption, a blank line, then the greeting; the greeting alone when the
      user's caption is missing or empty. */
  function SpecialCaption(userCaption: Option<string>, greeting: string): (c: string)
    ensures userCaption.None? || userCaption.value == [] ==> c == greeting
    ensures userCaption.Some? && userCaption.value != [] ==>
      && |userCaption.value| <= |c|
      && c[..|userCaption.value|] == userCaption.value
      && c[|userCaption.value|..] == "\n\n" + greeting
  {
    match userCaption
    case Some(u) => if u != [] then u + "\n\n" + greeting else greeting
    case None => greeting
  }

  /** Every caption ends with the greeting. */
  lemma SpecialCaptionEndsWithGreeting(userCaption: Option<string>, greeting: string)
    ensures var c := SpecialCaption(userCaption, greeting);
      |greeting| <= |c| && c[|c| - |greeting|..] == greeting
  {
  }

  /** The queue's primary key: no two rows share an id. */
  predicate UniqueIds(q: seq<Post>)
  {
    forall i, j :: 0 <= i < j < |q| ==> q[i].id != q[j].id
  }

  predicate HasId(q: seq<Post>, id: string)
  {
    exists k :: 0 <= k < |q| && q[k].id == id
  }

  /** `DELETE FROM meme_queue WHERE id = ?`: the queue without the rows that
      carry `id`, the others in their order. */
  function RemoveId(q: seq<Post>, id: string): seq<Post>
  {
    if q == [] then []
    else if q[0].id == id then RemoveId(q[1..], id)
    else [q[0]] + RemoveId(q[1..], id)
  }

  /** RemoveId keeps exactly the rows whose id differs. */
  lemma {:induction false} RemoveIdMembers(q: seq<Post>, id: string)
    ensures forall p :: p in RemoveId(q, id) <==> p in q && p.id != id
    ensures |RemoveId(q, id)| <= |q|
  {
    if q != [] {
      RemoveIdMembers(q[1..], id);
      assert forall p :: p in q <==> p == q[0] || p in q[1..];
    }
  }

  /** Deleting an id the queue does not hold changes nothing. */
  lemma {:induction false} RemoveAbsentId(q: seq<Post>, id: string)
    requires !HasId(q, id)
    ensures RemoveId(q, id) == q
  {
    if q != [] {
      RemoveAbsentId(q[1..], id);
      assert [q[0]] + q[1..] == q;
    }
  }

  /** With unique ids, deleting the id of row `k` removes that row alone and
      keeps every other row in order. */
  lemma {:induction false} RemoveIdAt(q: seq<Post>, k: nat)
    requires UniqueIds(q)
    requires k < |q|
    ensures RemoveId(q, q[k].id) == q[..k] + q[k + 1..]
  {
    var id := q[k].id;
    if k == 0 {
      RemoveAbsentId(q[1..], id);
    } else {
      assert q[0].id != id;
      RemoveIdAt(q[1..], k - 1);
      assert q[1..][k - 1] == q[k];
      assert [q[0]] + (q[1..][..k - 1] + q[1..][k..]) == q[..k] + q[k + 1..];
    }
  }

  /** Deleting rows keeps the ids unique. */
  lemma RemoveIdKeepsUnique(q: seq<Post>, id: string)
    requires UniqueIds(q)
    ensures UniqueIds(RemoveId(q, id))
  {
    if HasId(q, id) {
      var k :| 0 <= k < |q| && q[k].id == id;
      RemoveIdAt(q, k);
      var r := RemoveId(q, id);
      forall i, j | 0 <= i < j < |r| ensures r[i].id != r[j].id {
        var i' := if i < k then i else i + 1;
        var j' := if j < k then j else j + 1;
        assert r[i] == q[i'] && r[j] == q[j'];
      }
    } else {
      RemoveAbsentId(q, id);
    }
  }
}
