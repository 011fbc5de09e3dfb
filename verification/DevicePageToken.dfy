/** The "page:seen" token that carries a device phase's whole position between
    List calls (pkg/connector/managedDevice.go). */
module DevicePageToken {
  import opened Wrappers
  import opened GoInt

  function NewDevicePageToken(page: Int, seen: Int): string {
    Itoa(page) + ":" + Itoa(seen)
  }

  /** strings.SplitN(token, ":", 2): the text before the first colon and, when
      there is a colon, everything after it. */
  function SplitAtColon(token: string): (string, Option<string>) {
    if token == "" then ("", None)
    else if token[0] == ':' then ("", Some(token[1..]))
    else
      var (head, tail) := SplitAtColon(token[1..]);
      ([token[0]] + head, tail)
  }

  function AtoiOrZero(s: string): Int {
    var n := Atoi(s);
    if n.Some? then n.value else 0
  }

  function ParseDevicePageToken(token: string): (Int, Int) {
    if token == "" then (0, 0)
    else
      var (head, tail) := SplitAtColon(token);
      (AtoiOrZero(head), if tail.Some? then AtoiOrZero(tail.value) else 0)
  }

  lemma {:induction false} SplitAtColonJoin(a: string, b: string)
    requires ':' !in a
    ensures SplitAtColon(a + ":" + b) == (a, Some(b))
    ensures SplitAtColon(a) == (a, None)
  {
    if a == "" {
      assert (a + ":" + b)[1..] == b;
    } else {
      assert (a + ":" + b)[1..] == a[1..] + ":" + b && (a + ":" + b)[0] == a[0];
      SplitAtColonJoin(a[1..], b);
      assert [a[0]] + a[1..] == a;
    }
  }

  /** The token round trip, for every pair of machine integers. */
  lemma TokenRoundTrip(page: Int, seen: Int)
    ensures ParseDevicePageToken(NewDevicePageToken(page, seen)) == (page, seen)
  {
    ItoaHasNoColon(page);
    SplitAtColonJoin(Itoa(page), Itoa(seen));
    AtoiOfItoa(page);
    AtoiOfItoa(seen);
  }

  /** Every string is either bare or split by its first colon; each half is read
      on its own, and a half that is not a number reads as 0 without
      disturbing the other. A bare token leaves the count unknown. */
  lemma ParseReadsHalvesIndependently(a: string, b: string)
    requires ':' !in a
    ensures ParseDevicePageToken(a + ":" + b) == (AtoiOrZero(a), AtoiOrZero(b))
    ensures ParseDevicePageToken(a) == (AtoiOrZero(a), 0)
    ensures Atoi(a).None? ==> ParseDevicePageToken(a + ":" + b).0 == 0
    ensures Atoi(b).None? ==> ParseDevicePageToken(a + ":" + b).1 == 0
  {
    SplitAtColonJoin(a, b);
    if a == "" {
      assert Atoi(a) == None;
    }
  }

  /** The two shapes of the lemma above cover every string. */
  lemma {:induction false} EveryTokenIsBareOrSplit(token: string)
    ensures var (head, tail) := SplitAtColon(token);
            ':' !in head && token == match tail { case None => head case Some(b) => head + ":" + b }
  {
    if token != "" && token[0] != ':' {
      EveryTokenIsBareOrSplit(token[1..]);
      assert token == [token[0]] + token[1..];
    }
  }
}
