/** What acknowledgements achieve at the sender, and when its announcements are true. */
module Announcements {
  import opened PacketIds
  import opened Wrappers
  import opened Numbering
  import opened Protocol

  /** Every packet up to number `x` is acknowledged. */
  ghost predicate AckedThrough(cfg: Config, s: State, x: int) {
    forall k :: 0 <= k < |s.sent| && cfg.first + k <= x ==> !Outstanding(cfg, s, k)
  }

  /** The record with the lowest packet number. */
  ghost predicate IsOldest(keys: set<PartialPacketId>, o: PartialPacketId) {
    o in keys && forall key :: key in keys ==> NumberOf(o) <= NumberOf(key)
  }

  /** The oldest record belongs to the last id of a generation. */
  ghost predicate OldestIsLastId(keys: set<PartialPacketId>) {
    exists o :: IsOldest(keys, o) && o.packet == 0xffff
  }

  lemma {:induction false} OldestExists(keys: set<PartialPacketId>)
    requires keys != {}
    ensures exists o :: IsOldest(keys, o)
    decreases |keys|
  {
    var k :| k in keys;
    if keys == {k} {
      assert IsOldest(keys, k);
    } else {
      OldestExists(keys - {k});
      var o :| IsOldest(keys - {k}, o);
      assert IsOldest(keys, if NumberOf(k) < NumberOf(o) then k else o);
    }
  }

  /** Only the last id of a generation is filed away from its number. */
  lemma {:induction false} NoneBelowFirst(keys: set<PartialPacketId>, second: PartialPacketId)
    requires IsFirst(keys, second)
    ensures (forall key :: key in keys ==> NumberOf(key) >= second.Full()) <==> !OldestIsLastId(keys)
  {
    OldestExists(keys);
    var o :| IsOldest(keys, o);
    OrderIsNumeric(second, o);
    if o.packet != 0xffff {
      if OldestIsLastId(keys) {
        var o' :| IsOldest(keys, o') && o'.packet == 0xffff;
        NumberInjective(o, o');
      }
    } else {
      LastIdBelowFirst(second, o);
    }
  }

  lemma {:induction false} LastIdBelowFirst(second: PartialPacketId, o: PartialPacketId)
    requires o.packet == 0xffff && NumberOf(o) <= NumberOf(second)
    ensures NumberOf(o) < second.Full()
  {
    NumberInjective(o, second);
  }

  /** The announcement made when the oldest record is acknowledged, with `keys` left: the id
      before the next record, or before the next id to be given out. */
  lemma {:induction false} AnnouncedId(
      cfg: Config, s: State, first: PartialPacketId, keys: set<PartialPacketId>, id: u16)
    requires s.outstanding.Keys != {} && first == First(s.outstanding.Keys) && keys == s.outstanding.Keys - {first}
    requires first.packet == id && Ack(s.outstanding.Keys, s.out, id).announced.Some?
    requires SenderInv(cfg, s) && |s.sent| > 0
    ensures var x := Ack(s.outstanding.Keys, s.out, id).announced.value;
            x.Full() == if keys == {} then cfg.first + |s.sent| - 1 else First(keys).Full() - 1
  {
    var x := Ack(s.outstanding.Keys, s.out, id).announced.value;
    if keys == {} {
      assert s.outstanding.Keys == {first};
      SubExact(s.out, 1);
    } else {
      OrderIsNumeric(first, First(keys));
      FullInjective(first, First(keys));
      SubExact(First(keys), 1);
    }
  }

  /** What the sender announces when the oldest record is acknowledged, "every id up to X is
      acknowledged", is true if and only if the oldest record that remains is not the last id of
      a generation. When it is true the receiver has consumed every packet up to X. */
  lemma {:induction false} AnnouncementTrueExactly(cfg: Config, s: State, k: nat, x: PartialPacketId, s': State)
    requires TransportInv(cfg, s) && |s.sent| > 0 && TransportInv(cfg, s')
    requires cfg.first + |s.sent| < 0x1_0000_0000_0000 - 1
    requires s' == s.(outstanding := s.outstanding - Ack(s.outstanding.Keys, s.out, Nth(cfg.first + k).packet).removed)
    requires Ack(s.outstanding.Keys, s.out, Nth(cfg.first + k).packet).announced == Some(x)
    ensures AckedThrough(cfg, s', x.Full()) <==> !OldestIsLastId(s'.outstanding.Keys)
    ensures AckedThrough(cfg, s', x.Full()) ==> cfg.first + Done(cfg, s') > x.Full()
  {
    var first := First(s.outstanding.Keys);
    var keys := s'.outstanding.Keys;
    assert keys == s.outstanding.Keys - {first};
    AnnouncedId(cfg, s, first, keys, Nth(cfg.first + k).packet);
    if keys == {} {
      NothingLeft(cfg, s', x.Full());
    } else {
      NextLeft(cfg, s', First(keys), x.Full());
    }
  }

  lemma {:induction false} NothingLeft(cfg: Config, s: State, x: int)
    requires TransportInv(cfg, s) && s.outstanding.Keys == {} && x == cfg.first + |s.sent| - 1
    ensures AckedThrough(cfg, s, x) && !OldestIsLastId(s.outstanding.Keys) && cfg.first + Done(cfg, s) > x
  {
    AckedMeansConsumed(cfg, s, |s.sent|);
  }

  lemma {:induction false} NextLeft(cfg: Config, s: State, second: PartialPacketId, x: int)
    requires TransportInv(cfg, s) && IsFirst(s.outstanding.Keys, second) && x == second.Full() - 1
    requires cfg.first + |s.sent| < 0x1_0000_0000_0000 - 1
    ensures AckedThrough(cfg, s, x) <==> !OldestIsLastId(s.outstanding.Keys)
    ensures AckedThrough(cfg, s, x) ==> cfg.first + Done(cfg, s) > x
  {
    NoneBelowFirst(s.outstanding.Keys, second);
    AckedThroughIsNoneBelow(cfg, s, x + 1);
    if AckedThrough(cfg, s, x) {
      assert Filed(cfg, s, second);
      assert NumberOf(second) == x + 1;
      AckedMeansConsumed(cfg, s, x + 1 - cfg.first);
    }
  }

  lemma {:induction false} AckedThroughIsNoneBelow(cfg: Config, s: State, bound: int)
    requires SenderInv(cfg, s) && cfg.first + |s.sent| < 0x1_0000_0000_0000 - 1
    ensures AckedThrough(cfg, s, bound - 1) <==> forall key :: key in s.outstanding ==> NumberOf(key) >= bound
  {
    if AckedThrough(cfg, s, bound - 1) {
      forall key | key in s.outstanding
        ensures NumberOf(key) >= bound
      {
        assert Filed(cfg, s, key);
        var k := NumberOf(key) - cfg.first;
        NumberInjective(key, KeyOf(cfg.first + k));
        assert Outstanding(cfg, s, k);
      }
    } else {
      var k :| 0 <= k < |s.sent| && cfg.first + k <= bound - 1 && Outstanding(cfg, s, k);
      assert NumberOf(KeyOf(cfg.first + k)) < bound;
    }
  }

  /** An acknowledgement removes the record of its packet if and only if that lies within a cycle of
      the first record. Within a cycle of packet numbers this fails only for the last id of a
      generation, while the first record is of the same generation: then it has no effect. */
  lemma {:induction false} AckTakesEffectExactly(keys: set<PartialPacketId>, out: PartialPacketId, f: nat)
    requires KeyOf(f) in keys && f < 0x1_0000_0000_0000 - 0x2_0000
    ensures var id := Nth(f);
            var removed := Ack(keys, out, id.packet).removed;
            && (KeyOf(f) in removed <==> KeyOf(f).Full() < First(keys).Full() + 0x1_0000)
            && (!Ambiguous(keys, f) && f < NumberOf(First(keys)) + 0x1_0000 ==>
                  removed == if id.packet == 0xffff && First(keys).generation == id.generation then {} else {KeyOf(f)})
  {
    KeyHasId(f);
    IsRemoved(keys, out, Nth(f).packet, First(keys), KeyOf(f));
    AckRemovesOnlyOwnExactly(keys, out, f);
    if f < NumberOf(First(keys)) + 0x1_0000 {
      BlockedExactly(First(keys), KeyOf(f), f);
    }
  }

  lemma {:induction false} KeyHasId(f: nat)
    requires f < 0x1_0000_0000_0000 - 0x2_0000
    ensures KeyOf(f).packet == Nth(f).packet
    ensures KeyOf(f).generation == Nth(f).generation + if Nth(f).packet == 0xffff then 1 else 0
  {
    var id := Nth(f);
    NumberInjective(KeyOf(f), PartialPacketId(id.generation + if id.packet == 0xffff then 1 else 0, id.packet));
  }

  /** The acknowledgement of the packet with the lowest number always removes its record and no other. */
  lemma {:induction false} OldestAckTakesEffect(keys: set<PartialPacketId>, out: PartialPacketId, f: nat)
    requires IsOldest(keys, KeyOf(f)) && f < 0x1_0000_0000_0000 - 0x2_0000
    ensures Ack(keys, out, Nth(f).packet).removed == {KeyOf(f)} && !Ambiguous(keys, f)
  {
    var first := First(keys);
    KeyHasId(f);
    OrderIsNumeric(first, KeyOf(f));
    NumberInjective(first, KeyOf(f));
    assert NumberOf(KeyOf(f)) <= NumberOf(first);
    forall key | key in keys
      ensures !IsForeign(first, key, f)
    {
      NumberInjective(key, KeyOf(f));
    }
    AckRemovesOnlyOwnExactly(keys, out, f);
    AckTakesEffectExactly(keys, out, f);
  }

  /** The acknowledgement of the first record removes it and no other, whatever else is outstanding. */
  lemma {:induction false} FirstAckIsNeverAmbiguous(keys: set<PartialPacketId>, out: PartialPacketId, f: nat)
    requires keys != {} && First(keys) == KeyOf(f) && f < 0x1_0000_0000_0000 - 0x2_0000
    ensures Ack(keys, out, Nth(f).packet).removed == {KeyOf(f)} && !Ambiguous(keys, f)
  {
    KeyHasId(f);
    AckRemovesOnlyOwnExactly(keys, out, f);
  }

  lemma {:induction false} BlockedExactly(first: PartialPacketId, key: PartialPacketId, f: nat)
    requires f < 0x1_0000_0000_0000 - 0x2_0000 && key == KeyOf(f) && first.AtMost(key)
    requires f < NumberOf(first) + 0x1_0000
    ensures key.Full() < first.Full() + 0x1_0000 <==>
            !(Nth(f).packet == 0xffff && first.generation == Nth(f).generation)
  {
    KeyHasId(f);
    OrderIsNumeric(first, key);
  }

  /** What the step of an acknowledgement does to a state of a run. */
  lemma {:induction false} AcknowledgedState(
      cfg: Config, states: seq<State>, steps: seq<Step>, s: State, k: nat, s': State)
    requires Reached(cfg, states, steps, s) && Enabled(cfg, s, Acknowledge(k))
    requires s' == s.(outstanding := s.outstanding - Ack(s.outstanding.Keys, s.out, Nth(cfg.first + k).packet).removed)
    ensures TransportInv(cfg, s) && TransportInv(cfg, s') && |s.sent| > 0
  {
    var removed := Ack(s.outstanding.Keys, s.out, Nth(cfg.first + k).packet).removed;
    ReachedInv(cfg, states, steps, s);
    AckRemovesOnlyOwnExactly(s.outstanding.Keys, s.out, cfg.first + k);
    AcknowledgeKeepsInv(cfg, s, k, removed, s');
  }

  /** In every run: when the sender announces that every id up to X is acknowledged, and the oldest
      record that remains is not the last id of a generation, the receiver has consumed every
      packet up to X. */
  lemma {:induction false} AnnouncedIsConsumed(
      cfg: Config, states: seq<State>, steps: seq<Step>, s: State, k: nat, x: PartialPacketId, s': State)
    requires Reached(cfg, states, steps, s) && Enabled(cfg, s, Acknowledge(k))
    requires s' == s.(outstanding := s.outstanding - Ack(s.outstanding.Keys, s.out, Nth(cfg.first + k).packet).removed)
    requires Ack(s.outstanding.Keys, s.out, Nth(cfg.first + k).packet).announced == Some(x)
    ensures !OldestIsLastId(s'.outstanding.Keys) ==> cfg.first + Done(cfg, s') > x.Full()
  {
    AcknowledgedState(cfg, states, steps, s, k, s');
    AnnouncementTrueExactly(cfg, s, k, x, s');
  }
}
