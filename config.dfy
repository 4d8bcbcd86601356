/** The settings the bot reads from its environment at import time
    (main.py:40-58): the allowed user ids, the announcer's messages and the
    VK community table.  A `ValueError` raised by `int()` while reading them
    aborts the program; here it is an `Err`. */
module Config {
  import opened Wrappers
  import opened Text

  datatype ConfigError = NotAnInteger(text: string)

  /** The integers of the non-blank comma-separated pieces, left to right;
      the first piece `int()` rejects is the error. */
  function ParseIds(pieces: seq<string>): Result<seq<int>, ConfigError>
  {
    if pieces == [] then Ok([])
    else
      var t := Strip(pieces[0]);
      if t == [] then ParseIds(pieces[1..])
      else match PyInt(t)
        case None => Err(NotAnInteger(t))
        case Some(v) =>
          match ParseIds(pieces[1..])
          case Ok(vs) => Ok([v] + vs)
          case Err(e) => Err(e)
  }

  /** ALLOWED_USER_IDS (main.py:41). */
  function ParseUserIds(s: string): Result<seq<int>, ConfigError>
  {
    ParseIds(Split(s, ','))
  }

  /** The stripped non-blank pieces, in order. */
  function Messages(pieces: seq<string>): seq<string>
  {
    if pieces == [] then []
    else
      var t := Strip(pieces[0]);
      if t == [] then Messages(pieces[1..]) else [t] + Messages(pieces[1..])
  }

  /** RANDOM_MESSAGES (main.py:45). */
  function ParseMessages(s: string): seq<string>
  {
    Messages(Split(s, '|'))
  }

  /** The decimal forms of a list of ids. */
  function IdTexts(ids: seq<nat>): (r: seq<string>)
    ensures |r| == |ids|
  {
    if ids == [] then [] else [NatToString(ids[0])] + IdTexts(ids[1..])
  }

  /** Reading succeeds exactly when every non-blank piece is an integer. */
  lemma {:induction false} ParseIdsOk(pieces: seq<string>)
    ensures ParseIds(pieces).Ok? <==>
      forall k | 0 <= k < |pieces| :: Strip(pieces[k]) != [] ==> PyInt(Strip(pieces[k])).Some?
  {
    if pieces != [] {
      ParseIdsOk(pieces[1..]);
      assert forall k | 1 <= k < |pieces| :: pieces[k] == pieces[1..][k - 1];
    }
  }

  lemma {:induction false} ParseIdTexts(ids: seq<nat>)
    ensures ParseIds(IdTexts(ids)) == Ok(ids)
  {
    if ids != [] {
      ParseIdTexts(ids[1..]);
      var t := NatToString(ids[0]);
      NatToStringDigits(ids[0]);
      StripUnchanged(t);
      PyIntOfNatToString(ids[0]);
      assert IdTexts(ids)[1..] == IdTexts(ids[1..]);
      assert [ids[0]] + ids[1..] == ids;
    }
  }

  /** A comma-separated list of ids is read back as those ids. */
  lemma UserIdsRoundTrip(ids: seq<nat>)
    requires ids != []
    ensures ParseUserIds(Join(IdTexts(ids), ',')) == Ok(ids)
  {
    var texts := IdTexts(ids);
    forall k | 0 <= k < |texts| ensures ',' !in texts[k] {
      IdTextAt(ids, k);
      NatToStringHasNoSeparator(ids[k], ',');
    }
    SplitJoin(texts, ',');
    ParseIdTexts(ids);
  }

  lemma {:induction false} IdTextAt(ids: seq<nat>, k: nat)
    requires k < |ids|
    ensures IdTexts(ids)[k] == NatToString(ids[k])
  {
    if k > 0 {
      IdTextAt(ids[1..], k - 1);
    }
  }

  /** Every message is non-blank and already stripped, and it is the strip of
      one of the pieces. */
  lemma {:induction false} MessagesAreStripped(pieces: seq<string>)
    ensures forall m | m in Messages(pieces) :: m != [] && Strip(m) == m
    ensures forall m | m in Messages(pieces) :: exists k :: 0 <= k < |pieces| && m == Strip(pieces[k])
    ensures |Messages(pieces)| <= |pieces|
  {
    if pieces != [] {
      MessagesAreStripped(pieces[1..]);
      StripIdempotent(pieces[0]);
      forall m | m in Messages(pieces[1..])
        ensures exists k :: 0 <= k < |pieces| && m == Strip(pieces[k])
      {
        var k :| 0 <= k < |pieces[1..]| && m == Strip(pieces[1..][k]);
        assert pieces[k + 1] == pieces[1..][k];
      }
    }
  }

  /** Messages free of `|` and of surrounding whitespace are read back as
      written. */
  lemma {:induction false} MessagesRoundTrip(msgs: seq<string>)
    requires msgs != []
    requires forall k | 0 <= k < |msgs| :: msgs[k] != [] && Strip(msgs[k]) == msgs[k] && '|' !in msgs[k]
    ensures ParseMessages(Join(msgs, '|')) == msgs
  {
    SplitJoin(msgs, '|');
    MessagesOfStripped(msgs);
  }

  lemma {:induction false} MessagesOfStripped(msgs: seq<string>)
    requires forall k | 0 <= k < |msgs| :: msgs[k] != [] && Strip(msgs[k]) == msgs[k]
    ensures Messages(msgs) == msgs
  {
    if msgs != [] {
      MessagesOfStripped(msgs[1..]);
      assert [msgs[0]] + msgs[1..] == msgs;
    }
  }

  /** A community item is `name:id`: exactly one colon. */
  predicate IsEntry(item: string)
  {
    |Split(item, ':')| == 2
  }

  function EntryName(item: string): string
    requires IsEntry(item)
  {
    Strip(Split(item, ':')[0])
  }

  function EntryIdText(item: string): string
    requires IsEntry(item)
  {
    Strip(Split(item, ':')[1])
  }

  /** The community table built from a list of items, as the loop at
      main.py:55-58 builds it: items that are not `name:id` are skipped, a
      later item overwrites an earlier one of the same name, and the first id
      that is not an integer aborts. */
  function Communities(items: seq<string>): Result<map<string, int>, ConfigError>
  {
    if items == [] then Ok(map[])
    else
      match Communities(items[..|items| - 1])
      case Err(e) => Err(e)
      case Ok(m) =>
        var item := items[|items| - 1];
        if !IsEntry(item) then Ok(m)
        else match PyInt(EntryIdText(item))
          case None => Err(NotAnInteger(EntryIdText(item)))
          case Some(v) => Ok(m[EntryName(item) := v])
  }

  /** VK_COMMUNITIES (main.py:52-58). */
  function CommunitiesOf(s: string): Result<map<string, int>, ConfigError>
  {
    if s == "" then Ok(map[]) else Communities(Split(s, ','))
  }

  /** An error in a prefix of the items is the error of the whole list. */
  lemma {:induction false} CommunitiesErrorSticks(items: seq<string>, i: nat)
    requires i <= |items|
    requires Communities(items[..i]).Err?
    ensures Communities(items) == Communities(items[..i])
    decreases |items| - i
  {
    if i < |items| {
      assert items[..i + 1][..i] == items[..i];
      CommunitiesErrorSticks(items, i + 1);
    } else {
      assert items[..i] == items;
    }
  }

  /** The loop of main.py:54-58, which fills the table in place. */
  method ParseCommunities(s: string) returns (r: Result<map<string, int>, ConfigError>)
    ensures r == CommunitiesOf(s)
  {
    var communities: map<string, int> := map[];
    if s != "" {
      var items := Split(s, ',');
      var i := 0;
      while i < |items|
        invariant 0 <= i <= |items|
        invariant Communities(items[..i]) == Ok(communities)
      {
        var item := items[i];
        assert items[..i + 1][..i] == items[..i];
        var parts := Split(item, ':');
        if |parts| == 2 {
          var id := PyInt(Strip(parts[1]));
          if id.None? {
            CommunitiesErrorSticks(items, i + 1);
            return Err(NotAnInteger(Strip(parts[1])));
          }
          communities := communities[Strip(parts[0]) := id.value];
        }
        i := i + 1;
      }
      assert items[..i] == items;
    }
    return Ok(communities);
  }

  /** The table is built exactly when every `name:id` item has an integer id. */
  lemma {:induction false} CommunitiesOk(items: seq<string>)
    ensures Communities(items).Ok? <==>
      forall k | 0 <= k < |items| :: IsEntry(items[k]) ==> PyInt(EntryIdText(items[k])).Some?
  {
    if items != [] {
      var p := items[..|items| - 1];
      CommunitiesOk(p);
      assert forall k | 0 <= k < |p| :: p[k] == items[k];
    }
  }

  /** Whether some well-formed item carries `name`. */
  predicate Named(items: seq<string>, name: string)
  {
    exists k :: 0 <= k < |items| && IsEntry(items[k]) && EntryName(items[k]) == name
  }

  /** The table's names are exactly the names of the well-formed items. */
  lemma {:induction false} CommunitiesKeys(items: seq<string>, name: string)
    requires Communities(items).Ok?
    ensures name in Communities(items).value <==> Named(items, name)
  {
    if items != [] {
      var p := items[..|items| - 1];
      var last := items[|items| - 1];
      CommunitiesKeys(p, name);
      var m0 := Communities(p).value;
      var m := Communities(items).value;
      assert m.Keys == m0.Keys + (if IsEntry(last) then {EntryName(last)} else {});
      if Named(p, name) {
        var k :| 0 <= k < |p| && IsEntry(p[k]) && EntryName(p[k]) == name;
        assert items[k] == p[k];
      }
      if Named(items, name) && !(IsEntry(last) && EntryName(last) == name) {
        var k :| 0 <= k < |items| && IsEntry(items[k]) && EntryName(items[k]) == name;
        assert k < |p| && p[k] == items[k];
        assert Named(p, name);
      }
      if IsEntry(last) && EntryName(last) == name {
        assert items[|items| - 1] == last;
        assert Named(items, name);
      }
    }
  }

  /** The id kept for a name is that of the last well-formed item carrying it. */
  lemma {:induction false} CommunitiesLastWins(items: seq<string>, k: nat)
    requires Communities(items).Ok?
    requires k < |items| && IsEntry(items[k])
    requires forall j | k < j < |items| :: IsEntry(items[j]) ==> EntryName(items[j]) != EntryName(items[k])
    ensures EntryName(items[k]) in Communities(items).value
    ensures PyInt(EntryIdText(items[k])) == Some(Communities(items).value[EntryName(items[k])])
  {
    var p := items[..|items| - 1];
    if k < |p| {
      assert forall j | k < j < |p| :: p[j] == items[j];
      assert p[k] == items[k];
      CommunitiesLastWins(p, k);
    }
  }
}
