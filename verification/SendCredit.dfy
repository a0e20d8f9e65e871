/** Outbound flow control: how credit is taken from the two windows, given back by
    WINDOW_UPDATE, and moved by a change of the peer's SETTINGS_INITIAL_WINDOW_SIZE. */
module SendCredit {
  import opened FixedWidth
  import opened FrameCodec

  const DEFAULT_WINDOW := 65535

  datatype Setting = EnablePush | MaxFrameSize | InitialWindowSize | Other
  datatype Pair = Pair(id: Setting, value: nat)

  /** One pass of the waiting loop: data bytes granted, 0 meaning that the writer parks. */
  function Acquire(stream: int, conn: int, want: int, pad: int): (n: int)
    requires 0 < want <= MAX_WINDOW && 0 <= pad <= MAX_WINDOW
    requires -MAX_WINDOW <= stream <= MAX_WINDOW && 0 <= conn <= MAX_WINDOW
    ensures 0 <= n <= want
    ensures n == 0 <==> Min(stream, conn) <= pad
    ensures n > 0 ==> n + pad <= stream && n + pad <= conn
    ensures n > 0 ==> n == want || n + pad == Min(stream, conn)
  {
    var avail := Min(stream, conn);
    if avail > pad then Min(ToInt32(want), ToInt32(avail - pad)) else 0
  }

  predicate Covers(stream: int, conn: int, want: int, pad: int) {
    want + pad <= stream && want + pad <= conn
  }

  /** The peer's initial window after its SETTINGS, which names it any number of times. */
  function NewInitial(pairs: seq<Pair>, old0: int): int {
    if pairs == [] then old0
    else
      var last := pairs[|pairs| - 1];
      if last.id.InitialWindowSize? then last.value else NewInitial(pairs[..|pairs| - 1], old0)
  }

  predicate IsLast(pairs: seq<Pair>, i: nat)
    requires i < |pairs|
  {
    pairs[i].id.InitialWindowSize? && forall j :: i < j < |pairs| ==> !pairs[j].id.InitialWindowSize?
  }

  /** The last value given wins; without one the window stays. */
  lemma {:induction false} LastInitialWins(pairs: seq<Pair>, old0: int)
    ensures (forall i :: 0 <= i < |pairs| ==> !pairs[i].id.InitialWindowSize?) ==> NewInitial(pairs, old0) == old0
    ensures forall i :: 0 <= i < |pairs| && IsLast(pairs, i) ==> NewInitial(pairs, old0) == pairs[i].value
  {
    if pairs != [] {
      var n := |pairs| - 1;
      LastInitialWins(pairs[..n], old0);
      forall i | 0 <= i < |pairs| && IsLast(pairs, i) ensures NewInitial(pairs, old0) == pairs[i].value {
        assert i < n ==> IsLast(pairs[..n], i) && pairs[..n][i] == pairs[i];
      }
    }
  }

  predicate LegalPair(p: Pair) {
    && (p.id.EnablePush? ==> p.value == 0)
    && (p.id.MaxFrameSize? ==> FRAME_FLOOR <= p.value <= FRAME_CEIL)
  }

  datatype Applied = Done | ProtocolError | FlowControlError

  /** What a writer finds when it asks for credit: that it may go on, or the first thing
      that stops it, in the order of the questions. */
  datatype Standing = MayGoOn | ConnClosed | Cancelled | Stale | StreamClosed

  datatype Credit = Granted | Short | Denied(why: Standing)

  /** What a WINDOW_UPDATE comes to. */
  datatype Update = Credited | Found | Ignored | ConnOverflow | StreamOverflow | IdleStream

  /** The sending half of the connection. */
  class Sender {
    var initial: int
    var conn: int
    var windows: map<nat, int>

    predicate InRange()
      reads this
    {
      && 0 <= initial <= MAX_WINDOW && 0 <= conn <= MAX_WINDOW
      && forall id :: id in windows ==> -MAX_WINDOW <= windows[id] <= MAX_WINDOW
    }

    /** A window is never further below its initial value than credit was ever taken. */
    predicate Valid()
      reads this
    {
      InRange() && forall id :: id in windows ==> initial - MAX_WINDOW <= windows[id]
    }

    constructor ()
      ensures Valid() && initial == conn == DEFAULT_WINDOW && windows == map[]
    {
      initial, conn, windows := DEFAULT_WINDOW, DEFAULT_WINDOW, map[];
    }

    method Open(id: nat)
      requires Valid() && id !in windows
      modifies this`windows
      ensures Valid() && windows == old(windows)[id := initial]
    {
      windows := windows[id := ToInt32(initial)];
    }

    /** Either both windows pay for the whole amount or neither is touched. */
    method TryAcquireAll(id: nat, want: int, pad: int, found: Standing) returns (r: Credit)
      requires Valid() && id in windows && 0 <= pad
      modifies this`conn, this`windows
      ensures Valid()
      ensures r.Granted? <==> want <= 0 || (found.MayGoOn? && Covers(old(windows[id]), old(conn), want, pad))
      ensures r.Denied? <==> want > 0 && !found.MayGoOn?
      ensures r.Denied? ==> r.why == found
      ensures r.Granted? && want > 0 ==>
        conn == old(conn) - (want + pad) && windows == old(windows)[id := old(windows[id]) - (want + pad)]
      ensures !r.Granted? || want <= 0 ==> conn == old(conn) && windows == old(windows)
    {
      if want <= 0 {
        return Granted;
      }
      if !found.MayGoOn? {
        return Denied(found);
      }
      var need := want + pad;
      if windows[id] < need || conn < need {
        return Short;
      }
      conn := ToInt32(conn - ToInt32(need));
      windows := windows[id := ToInt32(windows[id] - ToInt32(need))];
      return Granted;
    }

    /** One pass of the waiting loop. */
    method AcquireOnce(id: nat, want: int, pad: int, found: Standing) returns (n: int, why: Standing)
      requires Valid() && id in windows && want <= MAX_WINDOW && 0 <= pad <= MAX_WINDOW
      modifies this`conn, this`windows
      ensures Valid()
      ensures why == if want <= 0 then MayGoOn else found
      ensures n == if want <= 0 || !found.MayGoOn? then 0 else Acquire(old(windows[id]), old(conn), want, pad)
      ensures n > 0 ==> conn == old(conn) - (n + pad) && windows == old(windows)[id := old(windows[id]) - (n + pad)]
      ensures n == 0 ==> conn == old(conn) && windows == old(windows)
    {
      if want <= 0 {
        return 0, MayGoOn;
      }
      if !found.MayGoOn? {
        return 0, found;
      }
      why := MayGoOn;
      var avail := windows[id];
      if conn < avail {
        avail := conn;
      }
      if avail <= pad {
        return 0, MayGoOn;
      }
      var maxData := ToInt32(avail - pad);
      n := ToInt32(want);
      if n > maxData {
        n := maxData;
      }
      var debit := ToInt32(n + pad);
      conn := ToInt32(conn - debit);
      windows := windows[id := ToInt32(windows[id] - debit)];
    }

    /** Stream 0 is the connection, and is credited at once. A stream is looked up. */
    method OnWindowUpdate(id: nat, increment: nat, idle: bool) returns (r: Update)
      requires Valid() && increment < TWO_32
      modifies this`conn
      ensures Valid()
      ensures r.ConnOverflow? <==> id == 0 && old(conn) + increment > MAX_WINDOW
      ensures r.Credited? <==> id == 0 && old(conn) + increment <= MAX_WINDOW
      ensures r.Found? <==> id != 0 && id in windows
      ensures r.IdleStream? <==> id != 0 && id !in windows && idle
      ensures r.Ignored? <==> id != 0 && id !in windows && !idle
      ensures conn == old(conn) + (if r.Credited? then increment else 0)
    {
      if id == 0 {
        if conn + increment > MAX_WINDOW {
          return ConnOverflow;
        }
        conn := ToInt32(conn + increment);
        return Credited;
      }
      if id !in windows {
        return if idle then IdleStream else Ignored;
      }
      return Found;
    }

    /** The second section: the struct looked up is credited, whatever stream it serves by
        then; 0 if none. A refused credit leaves the window as it was. */
    method CreditStruct(on: nat, increment: nat) returns (r: Update)
      requires Valid() && increment < TWO_32
      modifies this`windows
      ensures Valid()
      ensures r.Ignored? <==> on !in old(windows)
      ensures r.StreamOverflow? <==> on in old(windows) && old(windows[on]) + increment > MAX_WINDOW
      ensures r.Credited? <==> on in old(windows) && old(windows[on]) + increment <= MAX_WINDOW
      ensures windows == if r.Credited? then old(windows)[on := old(windows[on]) + increment] else old(windows)
    {
      if on !in windows {
        return Ignored;
      }
      if windows[on] + increment > MAX_WINDOW {
        return StreamOverflow;
      }
      windows := windows[on := ToInt32(windows[on] + increment)];
      return Credited;
    }

    /** The stream leaves the registry. */
    method Drop(id: nat)
      requires Valid()
      modifies this`windows
      ensures Valid() && windows == old(windows) - {id}
    {
      windows := windows - {id};
    }

    method CheckValues(pairs: seq<Pair>) returns (ok: bool)
      ensures ok <==> forall i :: 0 <= i < |pairs| ==> LegalPair(pairs[i])
    {
      for i := 0 to |pairs|
        invariant forall j :: 0 <= j < i ==> LegalPair(pairs[j])
      {
        var p := pairs[i];
        if (p.id.EnablePush? && p.value != 0)
          || (p.id.MaxFrameSize? && (p.value < FRAME_FLOOR || p.value > FRAME_CEIL)) {
          return false;
        }
      }
      return true;
    }

    /** Merges the pairs, stopping at an initial window above 2^31-1. */
    method Merge(pairs: seq<Pair>) returns (ok: bool)
      requires InRange()
      modifies this`initial
      ensures InRange()
      ensures ok <==> LegalInitials(pairs)
      ensures ok ==> initial == NewInitial(pairs, old(initial))
    {
      for i := 0 to |pairs|
        invariant InRange()
        invariant forall j :: 0 <= j < i && pairs[j].id.InitialWindowSize? ==> pairs[j].value <= MAX_WINDOW
        invariant initial == NewInitial(pairs[..i], old(initial))
      {
        assert pairs[..i + 1][..i] == pairs[..i];
        if pairs[i].id.InitialWindowSize? {
          if pairs[i].value > MAX_WINDOW {
            return false;
          }
          initial := pairs[i].value;
        }
      }
      assert pairs[..|pairs|] == pairs;
      return true;
    }

    /** Moves every open stream by the same amount, or stops at the first that would leave
        the legal range. */
    method Shift(delta: int) returns (ok: bool)
      requires InRange() && -MAX_WINDOW <= delta <= MAX_WINDOW
      requires forall id :: id in windows ==> -MAX_WINDOW <= windows[id] + delta
      modifies this`windows
      ensures InRange()
      ensures ok <==> forall id :: id in old(windows) ==> old(windows)[id] + delta <= MAX_WINDOW
      ensures windows.Keys == old(windows).Keys
      ensures ok ==> forall id :: id in windows ==> windows[id] == old(windows)[id] + delta
      ensures !ok ==> forall id :: id in windows ==>
        windows[id] == old(windows)[id] || windows[id] == old(windows)[id] + delta
    {
      var left := windows.Keys;
      while left != {}
        invariant InRange() && left <= windows.Keys == old(windows).Keys
        invariant forall id :: id in windows ==>
          windows[id] == if id in left then old(windows)[id] else old(windows)[id] + delta
        decreases |left|
      {
        var id :| id in left;
        if windows[id] + delta > MAX_WINDOW {
          return false;
        }
        windows := windows[id := ToInt32(windows[id] + delta)];
        left := left - {id};
      }
      return true;
    }

    predicate LegalInitials(pairs: seq<Pair>) {
      forall i :: 0 <= i < |pairs| && pairs[i].id.InitialWindowSize? ==> pairs[i].value <= MAX_WINDOW
    }

    /** Rejected before anything is merged, a connection error of its own, or applied to
        every open stream alike. */
    method ApplyPeerSettings(pairs: seq<Pair>) returns (r: Applied)
      requires Valid()
      modifies this`initial, this`windows
      ensures r.ProtocolError? <==> exists i :: 0 <= i < |pairs| && !LegalPair(pairs[i])
      ensures r.FlowControlError? <==>
        && (forall i :: 0 <= i < |pairs| ==> LegalPair(pairs[i]))
        && (LegalInitials(pairs) ==> exists id ::
              id in old(windows) && old(windows)[id] + NewInitial(pairs, old(initial)) - old(initial) > MAX_WINDOW)
      ensures !r.FlowControlError? ==> Valid()
      ensures r.ProtocolError? ==> initial == old(initial) && windows == old(windows)
      ensures r.Done? ==> initial == NewInitial(pairs, old(initial)) && windows.Keys == old(windows).Keys
      ensures r.Done? ==> forall id :: id in windows ==> windows[id] - initial == old(windows)[id] - old(initial)
    {
      var legal := CheckValues(pairs);
      if !legal {
        return ProtocolError;
      }
      var was := initial;
      var ok := Merge(pairs);
      if !ok {
        return FlowControlError;
      }
      if initial != was {
        ok := Shift(initial - was);
      }
      return if ok then Done else FlowControlError;
    }
  }
}
