/**
  Event words of libdyn. A 32-bit word is the set of its bit positions; bit 31 is the sign
  bit, so the C test `word > 0` holds for a non-empty word without bit 31.
 */
module Events {
  const WIDTH := 32

  type EventNr = e: nat | e < WIDTH

  type Word = w: set<nat> | forall e | e in w :: e < WIDTH

  /** (active & mask) > 0 on signed 32-bit words. */
  predicate Triggered(active: Word, mask: Word) {
    active * mask != {} && WIDTH - 1 !in active * mask
  }

  /** The word a block sees: bit i stands for the i-th event the block registered. */
  function Mapped(active: Word, emap: seq<EventNr>): Word {
    set i | 0 <= i < |emap| && i < WIDTH && emap[i] in active
  }

  /** What the registrations leave in a block: its mask and its event map. */
  datatype Subscription = Subscription(mask: Word, emap: seq<EventNr>)

  function Register(s: Subscription, event: EventNr): Subscription {
    Subscription(s.mask + {event}, s.emap + [event])
  }

  /** The first k of `events`, registered in order. */
  function RegisterAll(events: seq<EventNr>, k: nat): Subscription
    requires k <= |events|
  {
    if k == 0 then Subscription({}, []) else Register(RegisterAll(events, k - 1), events[k-1])
  }

  lemma {:induction false} RegisteredExactly(events: seq<EventNr>, k: nat)
    requires k <= |events|
    ensures var s := RegisterAll(events, k);
            && s.emap == events[..k]
            && (forall e :: e in s.mask <==> exists i :: 0 <= i < k && events[i] == e)
  {
    if k > 0 {
      RegisteredExactly(events, k - 1);
    }
  }

  /**
    After any sequence of at most 32 registrations and for any active word, bit i of the
    mapped word is set exactly when the i-th registered event is active. The block counts as
    triggered exactly when that word is non-zero, unless event 31 is registered and active:
    that single case turns the signed test negative.
   */
  lemma {:induction false} TriggeredExactly(events: seq<EventNr>, active: Word)
    requires |events| <= WIDTH
    ensures var s := RegisterAll(events, |events|);
            && (forall i :: i in Mapped(active, s.emap) <==> 0 <= i < |events| && events[i] in active)
            && ((Triggered(active, s.mask) <==> Mapped(active, s.emap) != {})
                <==> !(WIDTH - 1 in events && WIDTH - 1 in active))
  {
    var s := RegisterAll(events, |events|);
    RegisteredExactly(events, |events|);
    assert s.emap == events;
    MaskMeetsActive(events, s.mask, active);
    if WIDTH - 1 in events && WIDTH - 1 in active {
      assert WIDTH - 1 in active * s.mask;
    }
  }

  /** Some registered event is active if and only if the mapped word is not zero. */
  lemma {:induction false} MaskMeetsActive(events: seq<EventNr>, mask: Word, active: Word)
    requires |events| <= WIDTH && forall e :: e in mask <==> exists i :: 0 <= i < |events| && events[i] == e
    ensures active * mask != {} <==> Mapped(active, events) != {}
  {
    var w := Mapped(active, events);
    forall e | e in active * mask ensures w != {} {
      var i :| 0 <= i < |events| && events[i] == e;
      assert i in w;
    }
    forall i | i in w ensures active * mask != {} {
      assert events[i] in active * mask;
    }
  }
}
