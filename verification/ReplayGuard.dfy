/** The destination's replay state: a lazily swept, doubly capped set of reservations over any clock. */
module ReplayGuard {
  import opened JsText
  import opened Wrappers
  import Json

  datatype Options = Options(maxValidity: nat, skew: nat, maxEntries: nat, maxPerOrigin: nat)

  /** The fields of a verified manifest that replay policy reads. */
  datatype Claim = Claim(origin: Text, messageId: Text, blockIndex: nat, issuedAt: int, expiresAt: int)

  datatype SlotKey = SlotKey(text: Text)

  datatype Reservation = Reservation(exp: int, origin: Text)

  type Slots = map<SlotKey, Reservation>

  /** Reservations held, and the latest time this process has ever observed. */
  datatype Guard = Guard(entries: Slots, high: Option<int>)

  datatype Verdict = Admitted | ValidityTooLong | NotYetValid | Expired | Duplicate | AtCapacity | OriginAtCapacity

  const NUL: CodeUnit := 0

  /** `${originKeyId}\0${messageId}\0${blockIndex}`. */
  function KeyOf(c: Claim): SlotKey {
    SlotKey(c.origin + ([NUL] + (c.messageId + ([NUL] + Json.Digits(c.blockIndex)))))
  }

  /** Wall time held to its high-water mark. */
  function Current(high: Option<int>, observed: int): int {
    if high.Some? && observed < high.value then high.value else observed
  }

  /** The reservations whose window, with skew, has not passed. */
  function Live(entries: Slots, t: int): Slots {
    map k | k in entries && entries[k].exp >= t :: entries[k]
  }

  function Of(entries: Slots, origin: Text): set<SlotKey> {
    set k | k in entries && entries[k].origin == origin
  }

  function Count(entries: Slots, origin: Text): nat { |Of(entries, origin)| }

  /** The local time window, whatever the origin signed. */
  function Window(o: Options, c: Claim, t: int): Verdict {
    if c.expiresAt - c.issuedAt > o.maxValidity then ValidityTooLong
    else if c.issuedAt > t + o.skew then NotYetValid
    else if c.expiresAt < t - o.skew then Expired
    else Admitted
  }

  function Reserved(entries: Slots, o: Options, c: Claim): Slots {
    entries[KeyOf(c) := Reservation(c.expiresAt + o.skew, c.origin)]
  }

  /** Sweep only if the global ceiling is reached, then only if the origin's is. */
  function SweptIfFull(o: Options, entries: Slots, t: int): Slots {
    if |entries| >= o.maxEntries then Live(entries, t) else entries
  }

  function SweptIfOriginFull(o: Options, entries: Slots, t: int, origin: Text): Slots {
    if Count(entries, origin) >= o.maxPerOrigin then Live(entries, t) else entries
  }

  /** The decision: the window, then the slot, then room, swept for only where it seems to be missing. */
  function Assess(o: Options, g: Guard, observed: int, c: Claim, reserve: bool): (Guard, Verdict) {
    var t := Current(g.high, observed);
    var window := Window(o, c, t);
    if window != Admitted then (Guard(g.entries, Some(t)), window)
    else if KeyOf(c) in g.entries then
      if g.entries[KeyOf(c)].exp >= t then (Guard(g.entries, Some(t)), Duplicate)
      else (Guard(if reserve then Reserved(g.entries, o, c) else g.entries, Some(t)), Admitted)
    else
      var e1 := SweptIfFull(o, g.entries, t);
      if |e1| >= o.maxEntries then (Guard(e1, Some(t)), AtCapacity)
      else
        var e2 := SweptIfOriginFull(o, e1, t, c.origin);
        if Count(e2, c.origin) >= o.maxPerOrigin then (Guard(e2, Some(t)), OriginAtCapacity)
        else (Guard(if reserve then Reserved(e2, o, c) else e2, Some(t)), Admitted)
  }

  /** The obvious specification: drop everything expired, then decide. */
  function AssessEagerly(o: Options, g: Guard, observed: int, c: Claim, reserve: bool): (Guard, Verdict) {
    var t := Current(g.high, observed);
    var live := Live(g.entries, t);
    var window := Window(o, c, t);
    if window != Admitted then (Guard(live, Some(t)), window)
    else if KeyOf(c) in live then (Guard(live, Some(t)), Duplicate)
    else if |live| >= o.maxEntries then (Guard(live, Some(t)), AtCapacity)
    else if Count(live, c.origin) >= o.maxPerOrigin then (Guard(live, Some(t)), OriginAtCapacity)
    else (Guard(if reserve then Reserved(live, o, c) else live, Some(t)), Admitted)
  }

  /** `size` and `snapshot`: sweep at the current time. */
  function Swept(g: Guard, observed: int): Guard {
    var t := Current(g.high, observed);
    Guard(Live(g.entries, t), Some(t))
  }

  // ------------------------------------------------------------------ persistence

  /** A persisted reservation, or a line that fails the shape check. */
  datatype Line = Line(key: SlotKey, slot: Reservation) | Malformed

  function Loadable(o: Options, entries: Slots, t: int, l: Line): bool {
    && l.Line?
    && t <= l.slot.exp <= t + o.maxValidity + 2 * o.skew
    && l.key !in entries
    && |entries| < o.maxEntries
    && Count(entries, l.slot.origin) < o.maxPerOrigin
  }

  function LoadAll(o: Options, entries: Slots, t: int, lines: seq<Line>): Slots
    decreases |lines|
  {
    if lines == [] then entries
    else LoadAll(o, if Loadable(o, entries, t, lines[0]) then entries[lines[0].key := lines[0].slot] else entries,
                 t, lines[1..])
  }

  /** A guard restarted from a persisted snapshot. */
  function Restarted(o: Options, observed: int, lines: seq<Line>): Guard {
    Guard(LoadAll(o, map[], observed, lines), Some(observed))
  }

  /** The lines are exactly these reservations, each once, in some order. */
  ghost predicate Lists(lines: seq<Line>, entries: Slots) {
    && (forall i ::
        0 <= i < |lines| ==> lines[i].Line? && lines[i].key in entries && entries[lines[i].key] == lines[i].slot)
    && (forall i, j :: 0 <= i < j < |lines| ==> lines[i].key != lines[j].key)
    && (forall k :: k in entries ==> Line(k, entries[k]) in lines)
  }
}
