/**
 The commands of Redis the limiters use. A key is live while the clock reads less than its expiry.
 */
module Redis {
  import opened Basics

  datatype Cell = Absent | Held(value: int, expiry: Option<Time>)

  predicate IsLive(c: Cell, now: Time) {
    c.Held? && (c.expiry.Some? ==> now < c.expiry.value)
  }

  /** The cell as a command at time `now` sees it. */
  function Seen(c: Cell, now: Time): Cell {
    if IsLive(c, now) then c else Absent
  }

  /** PTTL: -2 without the key, -1 without an expiry, otherwise the time left. */
  function TimeLeft(c: Cell, now: Time): int {
    match Seen(c, now)
    case Absent => -2
    case Held(_, None) => -1
    case Held(_, Some(expiry)) => expiry - now
  }

  function Lookup(cells: map<string, Cell>, key: string): Cell {
    if key in cells then cells[key] else Absent
  }

  class Client {
    var now: Time
    var cells: map<string, Cell>

    constructor (now: Time)
      ensures this.now == now && cells == map[]
    {
      this.now := now;
      cells := map[];
    }

    method Get(key: string) returns (value: Option<int>)
      ensures value == if IsLive(Lookup(cells, key), now) then Some(Lookup(cells, key).value) else None
    {
      var c := Seen(Lookup(cells, key), now);
      value := if c.Held? then Some(c.value) else None;
    }

    method Incr(key: string) returns (value: int)
      modifies this`cells
      ensures cells == old(cells)[key := Lookup(cells, key)]
      ensures var c := Seen(Lookup(old(cells), key), now);
              Lookup(cells, key) == if c.Held? then Held(c.value + 1, c.expiry) else Held(1, None)
      ensures value == Lookup(cells, key).value
    {
      var c := Seen(Lookup(cells, key), now);
      var next := if c.Held? then Held(c.value + 1, c.expiry) else Held(1, None);
      cells := cells[key := next];
      value := next.value;
    }

    method PExpire(key: string, ttl: Time)
      modifies this`cells
      ensures if IsLive(Lookup(old(cells), key), now)
              then cells == old(cells)[key := Held(Lookup(old(cells), key).value, Some(now + ttl))]
              else cells == old(cells)
    {
      var c := Seen(Lookup(cells, key), now);
      if c.Held? {
        cells := cells[key := Held(c.value, Some(now + ttl))];
      }
    }

    method PTTL(key: string) returns (left: int)
      ensures left == TimeLeft(Lookup(cells, key), now)
    {
      var c := Seen(Lookup(cells, key), now);
      left := if c.Absent? then -2 else if c.expiry.None? then -1 else c.expiry.value - now;
    }

    /** SET key 1 PX ttl. */
    method Set(key: string, ttl: Time)
      modifies this`cells
      ensures cells == old(cells)[key := Held(1, Some(now + ttl))]
    {
      cells := cells[key := Held(1, Some(now + ttl))];
    }

    /** SET key 1 NX PX ttl. */
    method SetIfAbsent(key: string, ttl: Time) returns (created: bool)
      modifies this`cells
      ensures created == !IsLive(Lookup(old(cells), key), now)
      ensures cells == if created then old(cells)[key := Held(1, Some(now + ttl))] else old(cells)
    {
      created := !IsLive(Lookup(cells, key), now);
      if created {
        cells := cells[key := Held(1, Some(now + ttl))];
      }
    }

    method Del(key: string)
      modifies this`cells
      ensures cells == old(cells) - {key}
    {
      cells := cells - {key};
    }
  }
}
