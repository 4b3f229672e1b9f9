/** The order of channels: each channel stores the id of the channel above it, or 0. */
module ChannelOrder {
  import opened Wrappers

  type ChannelId = x: int | 0 <= x < 0x1_0000_0000_0000_0000

  /** The rest of a channel plays no part in its position. */
  datatype Channel = Channel(id: ChannelId, parent: ChannelId, order: ChannelId)

  type Channels = map<ChannelId, Channel>

  /** The lists the orders stand for, by parent. A parent without children may be absent. */
  type Lists = map<ChannelId, seq<ChannelId>>

  function ListOf(lists: Lists, parent: ChannelId): seq<ChannelId> {
    if parent in lists then lists[parent] else []
  }

  /** The order of a channel at position `k`. */
  function Above(list: seq<ChannelId>, k: nat): ChannelId
    requires k <= |list|
  {
    if k == 0 then 0 else list[k - 1]
  }

  predicate IsAt(list: seq<ChannelId>, k: nat, order: ChannelId) {
    k <= |list| && Above(list, k) == order
  }

  ghost predicate Links(channels: Channels, parent: ChannelId, list: seq<ChannelId>, k: nat)
    requires k < |list|
  {
    list[k] in channels && channels[list[k]] == Channel(list[k], parent, Above(list, k))
  }

  ghost predicate Differ(list: seq<ChannelId>, i: nat, j: nat)
    requires i < |list| && j < |list|
  {
    list[i] != list[j]
  }

  /** The list is the chain of the children of `parent`, top to bottom. */
  ghost predicate Chain(channels: Channels, parent: ChannelId, list: seq<ChannelId>) {
    && (forall k :: 0 <= k < |list| ==> Links(channels, parent, list, k))
    && (forall i, j :: 0 <= i < j < |list| ==> Differ(list, i, j))
    && (forall id :: id in channels && channels[id].parent == parent ==> id in list)
  }

  /** The orders encode one acyclic chain per parent, and every channel is in one. */
  ghost predicate Encodes(channels: Channels, lists: Lists) {
    && 0 !in channels
    && forall parent :: Chain(channels, parent, ListOf(lists, parent))
  }

  ghost predicate Encodable(channels: Channels) {
    exists lists :: Encodes(channels, lists)
  }

  // ----- Operations on lists

  function InsertAt(list: seq<ChannelId>, k: nat, id: ChannelId): seq<ChannelId>
    requires k <= |list|
  {
    list[..k] + [id] + list[k..]
  }

  function DeleteAt(list: seq<ChannelId>, k: nat): seq<ChannelId>
    requires k < |list|
  {
    list[..k] + list[k + 1..]
  }

  // ----- The scans over the hash map, which stop at the first match in any order

  /** The channel that says it is below `id`. */
  function Below(channels: Channels, id: ChannelId): set<ChannelId> {
    set c | c in channels && channels[c].order == id && c != id
  }

  /** The channel that is below `order` in the children of `parent`. */
  function Slot(channels: Channels, id: ChannelId, order: ChannelId, parent: ChannelId): set<ChannelId> {
    set c | c in channels && channels[c].order == order && channels[c].parent == parent && c != id
  }

  /** One of the matches gets a new order, if there is one. */
  ghost predicate Fixed(channels: Channels, matches: set<ChannelId>, order: ChannelId, channels': Channels)
    requires matches <= channels.Keys
  {
    if matches == {} then channels' == channels
    else exists c :: c in matches && channels' == channels[c := channels[c].(order := order)]
  }

  ghost predicate Unlinked(channels: Channels, id: ChannelId, order: ChannelId, channels': Channels) {
    Fixed(channels, Below(channels, id), order, channels')
  }

  ghost predicate Linked(channels: Channels, id: ChannelId, order: ChannelId, parent: ChannelId, channels': Channels) {
    Fixed(channels, Slot(channels, id, order, parent), id, channels')
  }

  // ----- What a chain looks like

  lemma {:induction false} SamePlace(channels: Channels, parent: ChannelId, list: seq<ChannelId>, i: nat, j: nat)
    requires 0 !in channels && Chain(channels, parent, list) && i <= |list| && j <= |list| &&
             Above(list, i) == Above(list, j)
    ensures i == j
  {
    assert i > 0 ==> Links(channels, parent, list, i - 1);
    assert j > 0 ==> Links(channels, parent, list, j - 1);
    assert 0 < i < j ==> Differ(list, i - 1, j - 1);
    assert 0 < j < i ==> Differ(list, j - 1, i - 1);
  }

  /** The first match of the scan is the only one: the channel that is at this place now. */
  lemma {:induction false} SlotIsUnique(channels: Channels, lists: Lists, id: ChannelId, parent: ChannelId, k: nat)
    requires Encodes(channels, lists) && id !in channels && k <= |ListOf(lists, parent)|
    ensures var list := ListOf(lists, parent);
            Slot(channels, id, Above(list, k), parent) == if k < |list| then {list[k]} else {}
  {
    var list := ListOf(lists, parent);
    var slot := Slot(channels, id, Above(list, k), parent);
    assert Chain(channels, parent, list);
    forall c
      ensures c in slot <==> k < |list| && c == list[k]
    {
      assert k < |list| ==> Links(channels, parent, list, k);
      if c in slot {
        var j :| 0 <= j < |list| && list[j] == c;
        assert Links(channels, parent, list, j);
        SamePlace(channels, parent, list, j, k);
      }
    }
  }

  lemma {:induction false} BelowIsUnique(channels: Channels, lists: Lists, parent: ChannelId, k: nat)
    requires Encodes(channels, lists) && k < |ListOf(lists, parent)|
    ensures var list := ListOf(lists, parent);
            Below(channels, list[k]) == if k + 1 < |list| then {list[k + 1]} else {}
  {
    var list := ListOf(lists, parent);
    var id := list[k];
    assert Chain(channels, parent, list) && Links(channels, parent, list, k);
    forall c
      ensures c in Below(channels, id) <==> k + 1 < |list| && c == list[k + 1]
    {
      assert k + 1 < |list| ==> Links(channels, parent, list, k + 1) && Differ(list, k, k + 1);
      if c in Below(channels, id) {
        OnlyBelow(channels, lists, parent, k, c);
      }
    }
  }

  lemma {:induction false} OnlyBelow(channels: Channels, lists: Lists, parent: ChannelId, k: nat, c: ChannelId)
    requires Encodes(channels, lists) && k < |ListOf(lists, parent)| && c in channels &&
             channels[c].order == ListOf(lists, parent)[k]
    ensures k + 1 < |ListOf(lists, parent)| && c == ListOf(lists, parent)[k + 1]
  {
    var list := ListOf(lists, parent);
    assert Chain(channels, parent, list) && Links(channels, parent, list, k);
    var other := channels[c].parent;
    var list' := ListOf(lists, other);
    assert Chain(channels, other, list');
    var j :| 0 <= j < |list'| && list'[j] == c;
    assert Links(channels, other, list', j);
    assert j > 0 && Links(channels, other, list', j - 1);
    assert other == parent;
    SamePlace(channels, parent, list, j, k + 1);
  }

  // ----- Insert, delete and move on chains

  /** Inserting a channel below `order` is inserting it into the list at that place. */
  lemma {:induction false} InsertRefines(
      channels: Channels, lists: Lists, id: ChannelId, parent: ChannelId, k: nat, fixed: Channels)
    requires Encodes(channels, lists) && id != 0 && id !in channels && k <= |ListOf(lists, parent)|
    requires Linked(channels, id, Above(ListOf(lists, parent), k), parent, fixed)
    ensures Encodes(fixed[id := Channel(id, parent, Above(ListOf(lists, parent), k))],
                    lists[parent := InsertAt(ListOf(lists, parent), k, id)])
  {
    var list := ListOf(lists, parent);
    SlotIsUnique(channels, lists, id, parent, k);
    assert Chain(channels, parent, list);
    var after := fixed[id := Channel(id, parent, Above(list, k))];
    var lists' := lists[parent := InsertAt(list, k, id)];
    assert k < |list| ==> Links(channels, parent, list, k);
    assert after == InsertedChannels(channels, list, id, parent, k);
    forall other
      ensures Chain(after, other, ListOf(lists', other))
    {
      assert Chain(channels, other, ListOf(lists, other));
      if other == parent {
        InsertedChain(channels, parent, list, id, k);
      } else {
        OtherChain(channels, other, ListOf(lists, other), after);
      }
    }
  }

  /** The channels with `id` at place `k`, and the channel that was there below it. */
  function InsertedChannels(
      channels: Channels, list: seq<ChannelId>, id: ChannelId, parent: ChannelId, k: nat): Channels
    requires k <= |list|
  {
    var mended := if k < |list| then channels[list[k] := Channel(list[k], parent, id)] else channels;
    mended[id := Channel(id, parent, Above(list, k))]
  }

  lemma {:induction false} InsertedChain(
      channels: Channels, parent: ChannelId, list: seq<ChannelId>, id: ChannelId, k: nat)
    requires Chain(channels, parent, list) && 0 !in channels && id != 0 && id !in channels && k <= |list|
    ensures Chain(InsertedChannels(channels, list, id, parent, k), parent, InsertAt(list, k, id))
  {
    var after, list' := InsertedChannels(channels, list, id, parent, k), InsertAt(list, k, id);
    forall i | 0 <= i < |list'|
      ensures Links(after, parent, list', i)
    {
      var j := if i < k then i else i - 1;
      assert i != k ==> list'[i] == list[j] && Links(channels, parent, list, j);
      assert i != k && j < k < |list| ==> Differ(list, j, k);
      assert i != k && k < j ==> Differ(list, k, j);
    }
    forall i, j | 0 <= i < j < |list'|
      ensures Differ(list', i, j)
    {
      var i', j' := if i < k then i else i - 1, if j < k then j else j - 1;
      assert i != k ==> Links(channels, parent, list, i');
      assert j != k ==> Links(channels, parent, list, j');
      assert i != k && j != k ==> Differ(list, i', j');
    }
    forall c | c in after && after[c].parent == parent
      ensures c in list'
    {
      if c == id {
        assert list'[k] == id;
      } else {
        var i :| 0 <= i < |list| && list[i] == c;
        assert list'[if i < k then i else i + 1] == c;
      }
    }
  }

  /** A chain whose channels did not change, and that got no new one. */
  lemma {:induction false} OtherChain(channels: Channels, parent: ChannelId, list: seq<ChannelId>, after: Channels)
    requires Chain(channels, parent, list)
    requires forall c :: c in channels && channels[c].parent == parent ==> c in after && after[c] == channels[c]
    requires forall c :: c in after && after[c].parent == parent ==> c in channels && channels[c].parent == parent
    ensures Chain(after, parent, list)
  {
    forall i | 0 <= i < |list|
      ensures Links(after, parent, list, i)
    {
      assert Links(channels, parent, list, i);
    }
  }

  /** Removing a channel is deleting it from its list. */
  lemma {:induction false} DeleteRefines(channels: Channels, lists: Lists, parent: ChannelId, k: nat, after: Channels)
    requires Encodes(channels, lists) && k < |ListOf(lists, parent)|
    requires ListOf(lists, parent)[k] in channels
    requires var id := ListOf(lists, parent)[k]; Unlinked(channels - {id}, id, channels[id].order, after)
    ensures Encodes(after, lists[parent := DeleteAt(ListOf(lists, parent), k)])
  {
    var list := ListOf(lists, parent);
    var id := list[k];
    assert Chain(channels, parent, list) && Links(channels, parent, list, k);
    BelowIsUnique(channels, lists, parent, k);
    assert Below(channels - {id}, id) == Below(channels, id);
    assert k + 1 < |list| ==> Links(channels, parent, list, k + 1) && Differ(list, k, k + 1);
    assert after == DeletedChannels(channels, list, parent, k);
    var lists' := lists[parent := DeleteAt(list, k)];
    forall other
      ensures Chain(after, other, ListOf(lists', other))
    {
      assert Chain(channels, other, ListOf(lists, other));
      if other == parent {
        DeletedChain(channels, parent, list, k);
      } else {
        OtherChain(channels, other, ListOf(lists, other), after);
      }
    }
  }

  /** The channels without the one at place `k`, the next one below what was above it. */
  function DeletedChannels(channels: Channels, list: seq<ChannelId>, parent: ChannelId, k: nat): Channels
    requires k < |list|
  {
    var rest := channels - {list[k]};
    if k + 1 < |list| then rest[list[k + 1] := Channel(list[k + 1], parent, Above(list, k))] else rest
  }

  lemma {:induction false} DeletedChain(channels: Channels, parent: ChannelId, list: seq<ChannelId>, k: nat)
    requires Chain(channels, parent, list) && k < |list|
    ensures Chain(DeletedChannels(channels, list, parent, k), parent, DeleteAt(list, k))
  {
    var after, list' := DeletedChannels(channels, list, parent, k), DeleteAt(list, k);
    forall i | 0 <= i < |list'|
      ensures Links(after, parent, list', i)
    {
      var j := if i < k then i else i + 1;
      assert list'[i] == list[j] && Links(channels, parent, list, j);
      assert j < k ==> Differ(list, j, k) && (k + 1 < |list| ==> Differ(list, j, k + 1));
      assert k < j ==> Differ(list, k, j);
      assert k + 1 < j ==> Differ(list, k + 1, j);
    }
    forall i, j | 0 <= i < j < |list'|
      ensures Differ(list', i, j)
    {
      assert Differ(list, if i < k then i else i + 1, if j < k then j else j + 1);
    }
    forall c | c in after && after[c].parent == parent
      ensures c in list'
    {
      assert k + 1 < |list| ==> Differ(list, k, k + 1);
      assert c in list;
      var i :| 0 <= i < |list| && list[i] == c;
      assert i != k;
      assert list'[if i < k then i else i - 1] == c;
    }
  }

  /** The steps of a move: the new order, the two scans, and then the new parent. */
  ghost predicate Moved(
      channels: Channels, id: ChannelId, order: ChannelId, parent: ChannelId, c2: Channels, c3: Channels,
      after: Channels)
    requires id in channels
  {
    && Unlinked(channels[id := channels[id].(order := order)], id, channels[id].order, c2)
    && Linked(c2, id, order, parent, c3)
    && id in c3 && after == c3[id := c3[id].(parent := parent)]
  }

  lemma {:induction false} FixedWithout(
      channels: Channels, matches: set<ChannelId>, order: ChannelId, fixed: Channels, id: ChannelId)
    requires matches <= channels.Keys && id !in matches && Fixed(channels, matches, order, fixed)
    ensures Fixed(channels - {id}, matches, order, fixed - {id})
    ensures fixed.Keys == channels.Keys && (id in channels ==> fixed[id] == channels[id])
  {
    if matches != {} {
      var c :| c in matches && fixed == channels[c := channels[c].(order := order)];
      assert fixed - {id} == (channels - {id})[c := (channels - {id})[c].(order := order)];
    }
  }

  /** The scans never look at the moved channel, so a move is a removal and an insertion. */
  lemma {:induction false} MoveIsDeleteThenInsert(
      channels: Channels, id: ChannelId, order: ChannelId, parent: ChannelId, c2: Channels, c3: Channels,
      after: Channels)
    requires id in channels && channels[id].id == id && Moved(channels, id, order, parent, c2, c3, after)
    ensures Unlinked(channels - {id}, id, channels[id].order, c2 - {id})
    ensures Linked(c2 - {id}, id, order, parent, c3 - {id})
    ensures after == (c3 - {id})[id := Channel(id, parent, order)]
  {
    var c1 := channels[id := channels[id].(order := order)];
    FixedWithout(c1, Below(c1, id), channels[id].order, c2, id);
    assert c1 - {id} == channels - {id} && Below(c1, id) == Below(channels - {id}, id);
    FixedWithout(c2, Slot(c2, id, order, parent), id, c3, id);
    assert Slot(c2, id, order, parent) == Slot(c2 - {id}, id, order, parent);
  }

  /** Moving a channel is deleting it from its list and inserting it into the new one, which may
      be the same. */
  lemma {:induction false} MoveRefines(
      channels: Channels, lists: Lists, i: nat, from: ChannelId, k: nat, parent: ChannelId, c2: Channels,
      c3: Channels, after: Channels)
    requires Encodes(channels, lists) && i < |ListOf(lists, from)| && ListOf(lists, from)[i] in channels
    requires var lists' := lists[from := DeleteAt(ListOf(lists, from), i)];
             k <= |ListOf(lists', parent)| &&
             Moved(channels, ListOf(lists, from)[i], Above(ListOf(lists', parent), k), parent, c2, c3, after)
    ensures var lists' := lists[from := DeleteAt(ListOf(lists, from), i)];
            Encodes(after, lists'[parent := InsertAt(ListOf(lists', parent), k, ListOf(lists, from)[i])])
  {
    var id := ListOf(lists, from)[i];
    assert Chain(channels, from, ListOf(lists, from)) && Links(channels, from, ListOf(lists, from), i);
    var lists' := lists[from := DeleteAt(ListOf(lists, from), i)];
    MoveIsDeleteThenInsert(channels, id, Above(ListOf(lists', parent), k), parent, c2, c3, after);
    DeleteRefines(channels, lists, from, i, c2 - {id});
    InsertRefines(c2 - {id}, lists', id, parent, k, c3 - {id});
  }

  // ----- Which orders keep the chains

  /** The order names no channel, or another channel of the same parent. */
  predicate IsPlace(channels: Channels, id: ChannelId, order: ChannelId, parent: ChannelId) {
    order == 0 || (order != id && order in channels && channels[order].parent == parent)
  }

  lemma {:induction false} PlaceExists(
      channels: Channels, lists: Lists, id: ChannelId, order: ChannelId, parent: ChannelId)
    requires Encodes(channels, lists) && IsPlace(channels, id, order, parent)
    ensures exists k: nat :: IsAt(ListOf(lists, parent), k, order)
  {
    var list := ListOf(lists, parent);
    if order == 0 {
      assert IsAt(list, 0, order);
    } else {
      assert Chain(channels, parent, list) && order in list;
      var j :| 0 <= j < |list| && list[j] == order;
      assert IsAt(list, j + 1, order);
    }
  }

  lemma {:induction false} EncodedIsPlace(channels: Channels, lists: Lists, id: ChannelId)
    requires Encodes(channels, lists) && id in channels
    ensures channels[id].id == id && IsPlace(channels, id, channels[id].order, channels[id].parent)
    ensures channels[id].order != 0 ==> channels[id].order in channels
  {
    var parent := channels[id].parent;
    var list := ListOf(lists, parent);
    assert Chain(channels, parent, list) && id in list;
    var j :| 0 <= j < |list| && list[j] == id;
    assert Links(channels, parent, list, j);
    assert j > 0 ==> Links(channels, parent, list, j - 1) && Differ(list, j - 1, j);
  }

  lemma {:induction false} FixedKeepsParents(
      channels: Channels, matches: set<ChannelId>, order: ChannelId, fixed: Channels)
    requires matches <= channels.Keys && Fixed(channels, matches, order, fixed)
    ensures fixed.Keys == channels.Keys
    ensures forall c :: c in channels ==> fixed[c].parent == channels[c].parent && fixed[c].id == channels[c].id
  {
    if matches != {} {
      var c :| c in matches && fixed == channels[c := channels[c].(order := order)];
    }
  }

  /** Adding a new channel keeps one chain per parent exactly when its order is 0 or a sibling. */
  lemma {:induction false} AddNewKeepsChainsExactly(channels: Channels, lists: Lists, channel: Channel, fixed: Channels)
    requires Encodes(channels, lists) && channel.id != 0 && channel.id !in channels
    requires Linked(channels, channel.id, channel.order, channel.parent, fixed)
    ensures Encodable(fixed[channel.id := channel]) <==>
            IsPlace(channels, channel.id, channel.order, channel.parent)
  {
    FixedKeepsParents(channels, Slot(channels, channel.id, channel.order, channel.parent), channel.id, fixed);
    if IsPlace(channels, channel.id, channel.order, channel.parent) {
      PlaceExists(channels, lists, channel.id, channel.order, channel.parent);
      var k: nat :| IsAt(ListOf(lists, channel.parent), k, channel.order);
      InsertRefines(channels, lists, channel.id, channel.parent, k, fixed);
    }
    var after := fixed[channel.id := channel];
    if Encodable(after) {
      var lists' :| Encodes(after, lists');
      EncodedIsPlace(after, lists', channel.id);
    }
  }

  // ----- Adding a channel whose id is in the map already

  lemma {:induction false} SameChannelStays(channels: Channels, lists: Lists, channel: Channel, fixed: Channels)
    requires Encodes(channels, lists) && channel.id in channels && channel == channels[channel.id]
    requires Linked(channels, channel.id, channel.order, channel.parent, fixed)
    ensures fixed[channel.id := channel] == channels
  {
    var list := ListOf(lists, channel.parent);
    assert Chain(channels, channel.parent, list) && channel.id in list;
    var i :| 0 <= i < |list| && list[i] == channel.id;
    assert Links(channels, channel.parent, list, i);
    forall c | c in channels && channels[c].order == channel.order && channels[c].parent == channel.parent
      ensures c == channel.id
    {
      var j :| 0 <= j < |list| && list[j] == c;
      assert Links(channels, channel.parent, list, j);
      SamePlace(channels, channel.parent, list, i, j);
    }
    assert Slot(channels, channel.id, channel.order, channel.parent) == {};
  }

  lemma {:induction false} LastIsReadded(channels: Channels, lists: Lists, channel: Channel, fixed: Channels)
    requires Encodes(channels, lists) && channel.id in channels && Below(channels, channel.id) == {}
    requires IsPlace(channels, channel.id, channel.order, channel.parent)
    requires Linked(channels, channel.id, channel.order, channel.parent, fixed)
    ensures Encodable(fixed[channel.id := channel])
  {
    var id, rest := channel.id, channels - {channel.id};
    var from := channels[id].parent;
    var list := ListOf(lists, from);
    assert Chain(channels, from, list) && id in list;
    var i :| 0 <= i < |list| && list[i] == id;
    EncodedIsPlace(channels, lists, id);
    assert Below(rest, id) == {};
    DeleteRefines(channels, lists, from, i, rest);
    FixedWithout(channels, Slot(channels, id, channel.order, channel.parent), id, fixed, id);
    assert Slot(rest, id, channel.order, channel.parent) == Slot(channels, id, channel.order, channel.parent);
    AddNewKeepsChainsExactly(rest, lists[from := DeleteAt(list, i)], channel, fixed - {id});
    assert (fixed - {id})[id := channel] == fixed[id := channel];
  }

  /** In a chain, whoever says it is below a channel is the next one. */
  lemma {:induction false} NextInChain(
      channels: Channels, parent: ChannelId, list: seq<ChannelId>, j: nat, c: ChannelId)
    requires 0 !in channels && Chain(channels, parent, list) && j < |list|
    requires c in channels && channels[c].parent == parent && channels[c].order == list[j]
    ensures j + 1 < |list| && list[j + 1] == c
  {
    var k :| 0 <= k < |list| && list[k] == c;
    assert Links(channels, parent, list, k) && Links(channels, parent, list, j);
    SamePlace(channels, parent, list, k, j + 1);
  }

  /** A stretch of one chain stands together in another one that agrees with it there. */
  lemma {:induction false} StretchStands(
      channels: Channels, after: Channels, parent: ChannelId, list: seq<ChannelId>, list': seq<ChannelId>,
      i: nat, j: nat, at: nat)
    requires 0 !in after && Chain(channels, parent, list) && Chain(after, parent, list')
    requires i <= j < |list| && at < |list'| && list'[at] == list[i]
    requires forall k :: i < k <= j ==>
             list[k] in channels && list[k] in after && after[list[k]] == channels[list[k]]
    ensures at + j - i < |list'| && list'[at + j - i] == list[j]
    decreases j
  {
    if i < j {
      StretchStands(channels, after, parent, list, list', i, j - 1, at);
      assert Links(channels, parent, list, j);
      NextInChain(after, parent, list', at + (j - 1) - i, list[j]);
    }
  }

  /** A channel put below the end of its own tail is in no chain. */
  lemma {:induction false} TailIsNoPlace(
      channels: Channels, lists: Lists, channel: Channel, i: nat, after: Channels, lists': Lists)
    requires Encodes(channels, lists) && i + 1 < |ListOf(lists, channel.parent)|
    requires ListOf(lists, channel.parent)[i] == channel.id && after == channels[channel.id := channel]
    requires channel.order == ListOf(lists, channel.parent)[|ListOf(lists, channel.parent)| - 1]
    ensures !Encodes(after, lists')
  {
    var parent := channel.parent;
    var list, list' := ListOf(lists, parent), ListOf(lists', parent);
    var last := |list| - 1;
    assert Chain(channels, parent, list);
    if 0 !in after && Chain(after, parent, list') && channel.id in list' {
      var at :| 0 <= at < |list'| && list'[at] == channel.id;
      forall k | i < k <= last
        ensures list[k] in channels && list[k] in after && after[list[k]] == channels[list[k]]
      {
        assert Links(channels, parent, list, k) && Differ(list, i, k);
      }
      StretchStands(channels, after, parent, list, list', i, last, at);
      NextInChain(after, parent, list', at + last - i, channel.id);
      SamePlace(after, parent, list', at + 1, at + last - i + 2);
    }
  }

  /** The channel below one that is added again keeps its place only if the channel keeps its own. */
  lemma {:induction false} ReaddedStays(
      channels: Channels, lists: Lists, channel: Channel, fixed: Channels, c: ChannelId, lists': Lists)
    requires Encodes(channels, lists) && channel.id in channels && c in Below(channels, channel.id)
    requires Linked(channels, channel.id, channel.order, channel.parent, fixed)
    requires Encodes(fixed[channel.id := channel], lists')
    ensures fixed == channels && channel.parent == channels[channel.id].parent
  {
    var id, after := channel.id, fixed[channel.id := channel];
    FixedKeepsParents(channels, Slot(channels, id, channel.order, channel.parent), id, fixed);
    EncodedIsPlace(channels, lists, id);
    EncodedIsPlace(channels, lists, c);
    assert after[c].order == id;
    EncodedIsPlace(after, lists', c);
    EncodedIsPlace(after, lists', id);
    if Slot(channels, id, channel.order, channel.parent) != {} {
      var d :| d in Slot(channels, id, channel.order, channel.parent) &&
               fixed == channels[d := channels[d].(order := id)];
      var list' := ListOf(lists', channel.parent);
      assert Chain(after, channel.parent, list') && id in list';
      var at: nat :| at < |list'| && list'[at] == id;
      OnlyBelow(after, lists', channel.parent, at, c);
      OnlyBelow(after, lists', channel.parent, at, d);
      assert false;
    }
  }

  lemma {:induction false} OnlySameIsReadded(
      channels: Channels, lists: Lists, channel: Channel, c: ChannelId, lists': Lists)
    requires Encodes(channels, lists) && channel.id in channels && c in Below(channels, channel.id)
    requires channel.parent == channels[channel.id].parent
    requires Slot(channels, channel.id, channel.order, channel.parent) == {}
    requires Encodes(channels[channel.id := channel], lists')
    ensures channel == channels[channel.id]
  {
    var id, after := channel.id, channels[channel.id := channel];
    var list := ListOf(lists, channel.parent);
    assert Chain(channels, channel.parent, list) && id in list;
    var i: nat :| i < |list| && list[i] == id;
    assert Links(channels, channel.parent, list, i);
    OnlyBelow(channels, lists, channel.parent, i, c);
    EncodedIsPlace(after, lists', id);
    PlaceExists(channels, lists, id, channel.order, channel.parent);
    var k: nat :| IsAt(list, k, channel.order);
    if k < |list| {
      assert Links(channels, channel.parent, list, k);
      assert list[k] !in Slot(channels, id, channel.order, channel.parent);
    } else {
      TailIsNoPlace(channels, lists, channel, i, after, lists');
    }
  }

  /**
   * Adding a channel keeps one chain per parent exactly when its order is 0 or a sibling, and, for a channel
   * that is in the map already, when no channel is below it or nothing about its place changes.
   */
  lemma {:induction false} AddKeepsChainsExactly(channels: Channels, lists: Lists, channel: Channel, fixed: Channels)
    requires Encodes(channels, lists) && channel.id != 0
    requires Linked(channels, channel.id, channel.order, channel.parent, fixed)
    ensures Encodable(fixed[channel.id := channel]) <==>
            IsPlace(channels, channel.id, channel.order, channel.parent) &&
            (channel.id in channels ==> Below(channels, channel.id) == {} || channel == channels[channel.id])
  {
    if channel.id !in channels {
      AddNewKeepsChainsExactly(channels, lists, channel, fixed);
    } else {
      var after := fixed[channel.id := channel];
      FixedKeepsParents(channels, Slot(channels, channel.id, channel.order, channel.parent), channel.id, fixed);
      EncodedIsPlace(channels, lists, channel.id);
      if channel == channels[channel.id] {
        SameChannelStays(channels, lists, channel, fixed);
      } else if Below(channels, channel.id) == {} && IsPlace(channels, channel.id, channel.order, channel.parent) {
        LastIsReadded(channels, lists, channel, fixed);
      }
      if Encodable(after) {
        var lists' :| Encodes(after, lists');
        EncodedIsPlace(after, lists', channel.id);
        if Below(channels, channel.id) != {} {
          var c :| c in Below(channels, channel.id);
          ReaddedStays(channels, lists, channel, fixed, c, lists');
          assert Slot(channels, channel.id, channel.order, channel.parent) == {};
          OnlySameIsReadded(channels, lists, channel, c, lists');
        }
      }
    }
  }

  /** The same for a move, where the channel itself is no place. */
  lemma {:induction false} MoveKeepsChainsExactly(
      channels: Channels, lists: Lists, id: ChannelId, order: ChannelId, parent: ChannelId, c2: Channels,
      c3: Channels, after: Channels)
    requires Encodes(channels, lists) && id in channels && Moved(channels, id, order, parent, c2, c3, after)
    ensures Encodable(after) <==> IsPlace(channels, id, order, parent)
  {
    EncodedIsPlace(channels, lists, id);
    MoveIsDeleteThenInsert(channels, id, order, parent, c2, c3, after);
    var from := channels[id].parent;
    var list := ListOf(lists, from);
    assert Chain(channels, from, list) && id in list;
    var i :| 0 <= i < |list| && list[i] == id;
    DeleteRefines(channels, lists, from, i, c2 - {id});
    var rest := channels - {id};
    FixedKeepsParents(rest, Below(rest, id), channels[id].order, c2 - {id});
    assert IsPlace(channels, id, order, parent) <==> IsPlace(c2 - {id}, id, order, parent);
    AddNewKeepsChainsExactly(c2 - {id}, lists[from := DeleteAt(list, i)], Channel(id, parent, order), c3 - {id});
  }

  /** The scan made for a created channel, and made again when it is added, changes nothing twice. */
  lemma {:induction false} SecondInsertDoesNothing(
      channels: Channels, lists: Lists, id: ChannelId, parent: ChannelId, k: nat, once: Channels, twice: Channels)
    requires Encodes(channels, lists) && id != 0 && id !in channels && k <= |ListOf(lists, parent)|
    requires Linked(channels, id, Above(ListOf(lists, parent), k), parent, once)
    requires Linked(once, id, Above(ListOf(lists, parent), k), parent, twice)
    ensures twice == once
  {
    var list := ListOf(lists, parent);
    SlotIsUnique(channels, lists, id, parent, k);
    assert Chain(channels, parent, list);
    assert k < |list| ==> Links(channels, parent, list, k);
    assert k > 0 ==> Links(channels, parent, list, k - 1);
    assert Slot(once, id, Above(list, k), parent) <= Slot(channels, id, Above(list, k), parent);
    assert Slot(once, id, Above(list, k), parent) == {};
  }

  // ----- The operations on the lists

  predicate DeletedAt(lists: Lists, parent: ChannelId, k: nat, id: ChannelId, lists': Lists) {
    var list := ListOf(lists, parent);
    k < |list| && list[k] == id && lists' == lists[parent := DeleteAt(list, k)]
  }

  predicate InsertedAt(lists: Lists, parent: ChannelId, k: nat, id: ChannelId, order: ChannelId, lists': Lists) {
    var list := ListOf(lists, parent);
    IsAt(list, k, order) && lists' == lists[parent := InsertAt(list, k, id)]
  }

  /** `lists'` are the lists without the channel. */
  ghost predicate IsDeleted(lists: Lists, parent: ChannelId, id: ChannelId, lists': Lists) {
    exists k: nat :: DeletedAt(lists, parent, k, id, lists')
  }

  /** `lists'` are the lists with the channel right below `order`. */
  ghost predicate IsInserted(lists: Lists, parent: ChannelId, id: ChannelId, order: ChannelId, lists': Lists) {
    exists k: nat :: InsertedAt(lists, parent, k, id, order, lists')
  }

  /** The scans of a move, before the parent is set; what is not given stays. */
  ghost predicate MovedInOrder(
      channels: Channels, id: ChannelId, newOrder: Option<ChannelId>, parent: Option<ChannelId>, c2: Channels,
      c3: Channels)
  {
    id in channels && id in c3 &&
    var to := if parent.Some? then parent.value else channels[id].parent;
    var order := if newOrder.Some? then newOrder.value else channels[id].order;
    Moved(channels, id, order, to, c2, c3, c3[id := c3[id].(parent := to)])
  }

  function Or(value: Option<ChannelId>, default: ChannelId): ChannelId {
    if value.Some? then value.value else default
  }

  function WithParent(channels: Channels, id: ChannelId, parent: Option<ChannelId>): Channels
    requires id in channels
  {
    if parent.Some? then channels[id := channels[id].(parent := parent.value)] else channels
  }

  /** The order and parent that a move ends with name a place. */
  ghost predicate IsNewPlace(
    channels: Channels, id: ChannelId, newOrder: Option<ChannelId>, parent: Option<ChannelId>)
    requires id in channels
  {
    IsPlace(channels, id, Or(newOrder, channels[id].order), Or(parent, channels[id].parent))
  }

  lemma {:induction false} ListsAfterDelete(
      channels: Channels, lists: Lists, id: ChannelId, after: Channels) returns (lists': Lists)
    requires Encodes(channels, lists) && id in channels && Unlinked(channels - {id}, id, channels[id].order, after)
    ensures Encodes(after, lists') && IsDeleted(lists, channels[id].parent, id, lists')
  {
    var parent := channels[id].parent;
    var list := ListOf(lists, parent);
    assert Chain(channels, parent, list) && id in list;
    var k: nat :| k < |list| && list[k] == id;
    DeleteRefines(channels, lists, parent, k, after);
    lists' := lists[parent := DeleteAt(list, k)];
    assert DeletedAt(lists, parent, k, id, lists');
  }

  lemma {:induction false} ListsAfterInsert(
      channels: Channels, lists: Lists, channel: Channel, fixed: Channels) returns (lists': Lists)
    requires Encodes(channels, lists) && channel.id != 0 && channel.id !in channels
    requires IsPlace(channels, channel.id, channel.order, channel.parent)
    requires Linked(channels, channel.id, channel.order, channel.parent, fixed)
    ensures Encodes(fixed[channel.id := channel], lists')
    ensures IsInserted(lists, channel.parent, channel.id, channel.order, lists')
  {
    PlaceExists(channels, lists, channel.id, channel.order, channel.parent);
    var list := ListOf(lists, channel.parent);
    var k: nat :| IsAt(list, k, channel.order);
    InsertRefines(channels, lists, channel.id, channel.parent, k, fixed);
    lists' := lists[channel.parent := InsertAt(list, k, channel.id)];
    assert InsertedAt(lists, channel.parent, k, channel.id, channel.order, lists');
  }

  /** A move deletes the channel from its list and inserts it into the new one. */
  lemma {:induction false} ListsAfterMove(
      channels: Channels, lists: Lists, id: ChannelId, order: ChannelId, parent: ChannelId, c2: Channels,
      c3: Channels, after: Channels)
    returns (mid: Lists, lists': Lists)
    requires Encodes(channels, lists) && id in channels && Moved(channels, id, order, parent, c2, c3, after)
    requires IsPlace(channels, id, order, parent)
    ensures Encodes(after, lists') && after.Keys == channels.Keys && after[id] == Channel(id, parent, order)
    ensures IsDeleted(lists, channels[id].parent, id, mid)
    ensures IsInserted(mid, parent, id, order, lists')
  {
    EncodedIsPlace(channels, lists, id);
    MoveIsDeleteThenInsert(channels, id, order, parent, c2, c3, after);
    var rest := channels - {id};
    FixedKeepsParents(rest, Below(rest, id), channels[id].order, c2 - {id});
    FixedKeepsParents(c2 - {id}, Slot(c2 - {id}, id, order, parent), id, c3 - {id});
    mid := ListsAfterDelete(channels, lists, id, c2 - {id});
    lists' := ListsAfterInsert(c2 - {id}, mid, Channel(id, parent, order), c3 - {id});
    assert after.Keys == rest.Keys + {id} == channels.Keys;
  }

  // ----- The channel tree

  datatype Error = NotFound(channel: ChannelId)

  class ChannelTree {
    var channels: Channels
    ghost var lists: Lists

    ghost predicate Valid()
      reads this
    {
      Encodes(channels, lists)
    }

    constructor ()
      ensures Valid() && channels == map[]
    {
      channels, lists := map[], map[];
    }

    method ChannelOrderRemove(id: ChannelId, order: ChannelId)
      modifies this`channels
      ensures Unlinked(old(channels), id, order, channels)
    {
      var matches := Below(channels, id);
      if matches != {} {
        var c :| c in matches;
        channels := channels[c := channels[c].(order := order)];
      }
    }

    method ChannelOrderInsert(id: ChannelId, order: ChannelId, parent: ChannelId)
      modifies this`channels
      ensures Linked(old(channels), id, order, parent, channels)
    {
      var matches := Slot(channels, id, order, parent);
      if matches != {} {
        var c :| c in matches;
        channels := channels[c := channels[c].(order := id)];
      }
    }

    /** On consistent orders this inserts the channel into the list of its parent, below the
        channel that `order` names. */
    method AddChannel(channel: Channel) returns (replaced: Option<Channel>)
      modifies this
      ensures exists fixed ::
                && Linked(old(channels), channel.id, channel.order, channel.parent, fixed)
                && channels == fixed[channel.id := channel]
      ensures replaced == if channel.id in old(channels) then Some(old(channels)[channel.id]) else None
      ensures old(Valid()) && channel.id != 0 && channel.id !in old(channels) &&
              IsPlace(old(channels), channel.id, channel.order, channel.parent) ==>
                Valid() && IsInserted(old(lists), channel.parent, channel.id, channel.order, lists)
      ensures old(Valid()) && channel.id != 0 && channel.id in old(channels) ==>
                (Valid() <==>
                 IsPlace(old(channels), channel.id, channel.order, channel.parent) &&
                 (Below(old(channels), channel.id) == {} || channel == old(channels)[channel.id]))
    {
      ghost var before := channels;
      ChannelOrderInsert(channel.id, channel.order, channel.parent);
      ghost var fixed := channels;
      FixedKeepsParents(before, Slot(before, channel.id, channel.order, channel.parent), channel.id, fixed);
      FixedWithout(before, Slot(before, channel.id, channel.order, channel.parent), channel.id, fixed, channel.id);
      replaced := if channel.id in channels then Some(channels[channel.id]) else None;
      channels := channels[channel.id := channel];
      if Encodes(before, lists) && channel.id != 0 && channel.id !in before &&
          IsPlace(before, channel.id, channel.order, channel.parent) {
        lists := ListsAfterInsert(before, lists, channel, fixed);
      } else if Encodes(before, lists) && channel.id != 0 && channel.id in before {
        AddKeepsChainsExactly(before, lists, channel, fixed);
        if Encodable(channels) {
          ghost var lists' :| Encodes(channels, lists');
          lists := lists';
        }
      }
    }

    /** On consistent orders this deletes the channel from its list. */
    method RemoveChannel(id: ChannelId) returns (removed: Option<Channel>)
      modifies this
      ensures removed == if id in old(channels) then Some(old(channels)[id]) else None
      ensures id !in old(channels) ==> channels == old(channels) && lists == old(lists)
      ensures id in old(channels) ==>
                var channel := old(channels)[id];
                Unlinked(old(channels) - {id}, channel.id, channel.order, channels)
      ensures old(Valid()) ==> Valid() && channels.Keys == old(channels).Keys - {id}
      ensures old(Valid()) && id in old(channels) ==> IsDeleted(old(lists), old(channels)[id].parent, id, lists)
    {
      if id !in channels {
        return None;
      }
      ghost var before := channels;
      removed := Some(channels[id]);
      channels := channels - {id};
      ChannelOrderRemove(removed.value.id, removed.value.order);
      if Encodes(before, lists) {
        EncodedIsPlace(before, lists, id);
        FixedKeepsParents(before - {id}, Below(before - {id}, id), removed.value.order, channels);
        lists := ListsAfterDelete(before, lists, id, channels);
      }
    }

    method ChannelOrderMove(
        id: ChannelId, newOrder: Option<ChannelId>, parent: Option<ChannelId>) returns (r: Result<(), Error>)
      modifies this`channels
      ensures newOrder == parent == None ==> r == Success(()) && channels == old(channels)
      ensures r.Failure? <==> (newOrder.Some? || parent.Some?) && id !in old(channels)
      ensures r.Failure? ==> r.error == NotFound(id) && channels == old(channels)
      ensures r.Success? && (newOrder.Some? || parent.Some?) ==>
                && channels.Keys == old(channels).Keys
                && exists c2 :: MovedInOrder(old(channels), id, newOrder, parent, c2, channels)
    {
      if newOrder.Some? || parent.Some? {
        if id !in channels {
          return Failure(NotFound(id));
        }
        ghost var before := channels;
        var channel := channels[id];
        var newParent := if parent.Some? then parent.value else channel.parent;
        if newOrder.Some? {
          channels := channels[id := channel.(order := newOrder.value)];
        }
        ghost var c1 := channels;
        assert c1 == before[id := channel.(order := if newOrder.Some? then newOrder.value else channel.order)];
        ChannelOrderRemove(id, channel.order);
        ghost var c2 := channels;
        FixedKeepsParents(c1, Below(c1, id), channel.order, c2);
        ChannelOrderInsert(id, if newOrder.Some? then newOrder.value else channel.order, newParent);
        ghost var order := if newOrder.Some? then newOrder.value else channel.order;
        FixedKeepsParents(c2, Slot(c2, id, order, newParent), id, channels);
        assert MovedInOrder(before, id, newOrder, parent, c2, channels);
      }
      return Success(());
    }

    /** An edit or a move of a channel: the orders are mended, then the parent is set. On consistent
        orders, and if the new order is a place under the new parent, this deletes the channel from
        its list and inserts it into the new one. */
    method MoveChannel(id: ChannelId, newOrder: Option<ChannelId>, parent: Option<ChannelId>)
      returns (r: Result<(), Error>)
      modifies this
      ensures r.Failure? <==> (newOrder.Some? || parent.Some?) && id !in old(channels)
      ensures r.Failure? || newOrder == parent == None ==> channels == old(channels) && lists == old(lists)
      ensures r.Success? && (newOrder.Some? || parent.Some?) ==>
                exists c2, c3 :: MovedInOrder(old(channels), id, newOrder, parent, c2, c3) &&
                                 channels == WithParent(c3, id, parent)
      ensures r.Success? && (newOrder.Some? || parent.Some?) && old(Valid()) &&
              IsNewPlace(old(channels), id, newOrder, parent) ==>
                && Valid() && channels.Keys == old(channels).Keys
                && channels[id].id == id && channels[id].parent == Or(parent, old(channels)[id].parent)
                && channels[id].order == Or(newOrder, old(channels)[id].order)
                && exists mid :: IsDeleted(old(lists), old(channels)[id].parent, id, mid) &&
                                 IsInserted(mid, channels[id].parent, id, channels[id].order, lists)
    {
      ghost var before := channels;
      r := ChannelOrderMove(id, newOrder, parent);
      if r.Failure? || (newOrder.None? && parent.None?) {
        return;
      }
      ghost var c3 := channels;
      ghost var c2 :| MovedInOrder(before, id, newOrder, parent, c2, c3);
      if parent.Some? {
        channels := channels[id := channels[id].(parent := parent.value)];
      }
      assert MovedInOrder(before, id, newOrder, parent, c2, c3) && channels == WithParent(c3, id, parent);
      if Encodes(before, lists) && IsNewPlace(before, id, newOrder, parent) {
        ghost var mid;
        mid, lists := ListsAfterMove(before, lists, id, Or(newOrder, before[id].order), Or(parent, before[id].parent),
                                     c2, c3, channels);
      }
    }
  }
}
