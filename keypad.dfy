/** The keypad: the sixteen CHIP-8 keys, the table that maps each of them to
    the keyboard scancode it is read from, the reverse lookup, and the
    key-down event filter of the "wait for a key" instruction. */
module Keypad {
  import opened Wrappers

  /** Number of keys on the CHIP-8 keypad. */
  const NumKeys: int := 16

  /** Size of the keyboard state array the host hands out (one entry per
      scancode). */
  const NumScancodes: int := 512

  /** Scancodes of the keys 1 2 3 4 / Q W E R / A S D F / Z X C V, which
      stand for CHIP-8 keys 0x0 to 0xF in that order. */
  const KeyLookup: seq<int> := [30, 31, 32, 33, 20, 26, 8, 21, 4, 22, 7, 9, 29, 27, 6, 25]

  /** What the event queue delivers while the interpreter waits for a key. */
  datatype Event = KeyDown(scancode: int) | OtherEvent

  /** Linear search: the index of the first entry of `table` equal to
      `code`, or `|table|` when there is none. */
  function FindIndex(table: seq<int>, code: int): (k: nat)
    ensures k <= |table|
    ensures k < |table| ==> table[k] == code
    ensures forall j :: 0 <= j < k ==> table[j] != code
  {
    if |table| == 0 then 0
    else if table[0] == code then 0
    else 1 + FindIndex(table[1..], code)
  }

  /** The CHIP-8 key read from `code`, or 16 when no key is mapped to it. */
  function LookupScancode(code: int): (k: nat)
    ensures k <= NumKeys
    ensures k < NumKeys <==> code in KeyLookup
    ensures k < NumKeys ==> KeyLookup[k] == code
  {
    FindIndex(KeyLookup, code)
  }

  /** The table maps different keys to different scancodes. */
  lemma KeyLookupDistinct()
    ensures |KeyLookup| == NumKeys
    ensures forall i, j :: 0 <= i < j < |KeyLookup| ==> KeyLookup[i] != KeyLookup[j]
    ensures forall i :: 0 <= i < |KeyLookup| ==> 0 <= KeyLookup[i] < NumScancodes
  {
  }

  /** Looking up the scancode of a key gives that key back. */
  lemma LookupOfKey(k: int)
    requires 0 <= k < NumKeys
    ensures LookupScancode(KeyLookup[k]) == k
  {
    KeyLookupDistinct();
  }

  /** A key-down event is accepted by the wait loop when its scancode stands
      for a key. */
  predicate Accepts(e: Event) {
    e.KeyDown? && e.scancode in KeyLookup
  }

  /** Position of the first accepted event, or `|events|` when none is. */
  function FirstAccepted(events: seq<Event>): (i: nat)
    ensures i <= |events|
    ensures i < |events| ==> Accepts(events[i])
    ensures forall j :: 0 <= j < i ==> !Accepts(events[j])
  {
    if |events| == 0 then 0
    else if Accepts(events[0]) then 0
    else 1 + FirstAccepted(events[1..])
  }

  /** The key the wait loop stores: that of the first accepted event, or
      `None` when the events run out first (the host's wait call fails and
      the loop is left with the register untouched). */
  function FirstKey(events: seq<Event>): (r: Option<bv8>)
    ensures r.Some? <==> exists i :: 0 <= i < |events| && Accepts(events[i])
    ensures r.Some? ==> r.value < NumKeys as bv8
    ensures r.Some? ==> KeyLookup[r.value as int] == events[FirstAccepted(events)].scancode
  {
    var i := FirstAccepted(events);
    if i < |events| then Some(KeyByte(LookupScancode(events[i].scancode))) else None
  }

  /** A key number as the byte Chip.cpp stores it in. */
  function KeyByte(k: nat): (b: bv8)
    requires k < NumKeys
    ensures b < NumKeys as bv8
    ensures b as int == k
  {
    k as bv8
  }

  /** Events that are not accepted are skipped, and a key-down of the key
      `k`'s scancode ends the wait with `k`. */
  lemma WaitEndsWithKey(skipped: seq<Event>, k: int, rest: seq<Event>)
    requires forall j :: 0 <= j < |skipped| ==> !Accepts(skipped[j])
    requires 0 <= k < NumKeys
    ensures FirstKey(skipped + [KeyDown(KeyLookup[k])] + rest) == Some(KeyByte(k))
  {
    var events := skipped + [KeyDown(KeyLookup[k])] + rest;
    assert events[|skipped|] == KeyDown(KeyLookup[k]);
    assert forall j :: 0 <= j < |skipped| ==> events[j] == skipped[j];
    assert Accepts(events[|skipped|]);
    assert FirstAccepted(events) == |skipped|;
    LookupOfKey(k);
  }

  /** The wait loop's view of the first key: once every earlier event was
      skipped, an accepted event ends the wait with its key. */
  lemma FirstKeyAt(events: seq<Event>, i: nat)
    requires i < |events| && Accepts(events[i])
    requires forall j :: 0 <= j < i ==> !Accepts(events[j])
    ensures FirstAccepted(events) == i
    ensures FirstKey(events) == Some(KeyByte(LookupScancode(events[i].scancode)))
  {
  }

  /** When no event is accepted the wait ends without a key. */
  lemma NoFirstKey(events: seq<Event>)
    requires forall j :: 0 <= j < |events| ==> !Accepts(events[j])
    ensures FirstKey(events) == None
  {
  }
}
