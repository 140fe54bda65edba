/** The per-user audit log: rows linked by the hash of the row before, and what checking the links can see. */
module AuditChain {
  import opened Prelude
  import opened Sorting

  type Blob = seq<bv8>
  type Hash = string
  type Key = seq<nat>

  datatype Event = Event(action: string, actor: string, timestamp: nat, details: string, prevHash: Option<Hash>)

  /** Hashing and the JSON encoding, of which only the stated facts are used. */
  datatype Wire = Wire(hash: Blob -> Hash, encode: Event -> Blob, parse: Blob -> Option<Event>)

  ghost predicate RoundTrips(w: Wire) {
    forall e :: w.parse(w.encode(e)) == Some(e)
  }

  /** No two different rows of the log share a hash. */
  ghost predicate NoCollision(w: Wire, blobs: seq<Blob>) {
    forall i, j :: 0 <= i < |blobs| && 0 <= j < |blobs| && w.hash(blobs[i]) == w.hash(blobs[j]) ==> blobs[i] == blobs[j]
  }

  // --------------------------------------------------------------------------------- checking

  predicate Chained(w: Wire, blob: Blob) {
    var event := w.parse(blob);
    event.Some? && event.value.prevHash.Some?
  }

  predicate Started(w: Wire, blobs: seq<Blob>, i: nat)
    requires i <= |blobs|
  {
    exists j :: 1 <= j < i && Chained(w, blobs[j])
  }

  datatype Flaw = Unreadable | MissingLink | WrongLink

  function FlawAt(w: Wire, blobs: seq<Blob>, i: nat): Option<Flaw>
    requires 1 <= i < |blobs|
  {
    match w.parse(blobs[i])
    case None => Some(Unreadable)
    case Some(event) =>
      match event.prevHash
      case None => if Started(w, blobs, i) then Some(MissingLink) else None
      case Some(h) => if h == w.hash(blobs[i - 1]) then None else Some(WrongLink)
  }

  ghost predicate Linked(w: Wire, blobs: seq<Blob>) {
    forall i :: 1 <= i < |blobs| ==> FlawAt(w, blobs, i) == None
  }

  function ChainedCount(w: Wire, blobs: seq<Blob>): nat {
    if |blobs| <= 1 then 0
    else ChainedCount(w, blobs[..|blobs| - 1]) + if Chained(w, blobs[|blobs| - 1]) then 1 else 0
  }

  /** Every row but the first counts when it is linked. */
  lemma ChainedCountsEach(w: Wire, blobs: seq<Blob>, b: Blob)
    ensures ChainedCount(w, []) == 0 && ChainedCount(w, [b]) == 0
    ensures blobs != [] ==> ChainedCount(w, blobs + [b]) - ChainedCount(w, blobs) == if Chained(w, b) then 1 else 0
  {
    assert (blobs + [b])[..|blobs|] == blobs;
  }

  datatype ChainStatus = Valid(chained: nat) | Broken(index: nat, flaw: Flaw) | Indeterminate(undecryptable: nat)

  ghost predicate Reports(w: Wire, blobs: seq<Blob>, status: ChainStatus) {
    match status
    case Valid(chained) => Linked(w, blobs) && chained == ChainedCount(w, blobs)
    case Broken(index, flaw) =>
      && 1 <= index < |blobs|
      && FlawAt(w, blobs, index) == Some(flaw)
      && forall j :: 1 <= j < index ==> FlawAt(w, blobs, j) == None
    case Indeterminate(_) => false
  }

  /** One pass reports the first flaw, or that there is none. */
  method VerifyChainBlobs(w: Wire, blobs: seq<Blob>) returns (status: ChainStatus)
    ensures Reports(w, blobs, status)
  {
    var entered, chained := false, 0;
    var i := 1;
    while i < |blobs|
      invariant 1 <= i && (i <= |blobs| || |blobs| == 0)
      invariant |blobs| == 0 ==> chained == 0
      invariant |blobs| > 0 ==> entered == Started(w, blobs, i) && chained == ChainedCount(w, blobs[..i])
      invariant forall j :: 1 <= j < i && j < |blobs| ==> FlawAt(w, blobs, j) == None
    {
      var parsed := w.parse(blobs[i]);
      if parsed.None? { return Broken(i, Unreadable); }
      if parsed.value.prevHash.None? {
        if entered { return Broken(i, MissingLink); }
      } else {
        entered := true;
        chained := chained + 1;
        if parsed.value.prevHash.value != w.hash(blobs[i - 1]) { return Broken(i, WrongLink); }
        assert Chained(w, blobs[i]);
      }
      assert blobs[..i + 1][..i] == blobs[..i];
      i := i + 1;
    }
    assert |blobs| > 0 ==> blobs[..i] == blobs;
    return Valid(chained);
  }

  /** Unlinked rows come first, and from the first linked row on every row names the one before it. */
  ghost predicate LegacyThenChain(w: Wire, blobs: seq<Blob>, k: nat) {
    && (forall i :: 1 <= i < k && i < |blobs| ==> w.parse(blobs[i]).Some? && w.parse(blobs[i]).value.prevHash == None)
    && (forall i :: 1 <= k <= i < |blobs| ==>
          w.parse(blobs[i]).Some? && w.parse(blobs[i]).value.prevHash == Some(w.hash(blobs[i - 1])))
  }

  lemma LinkedMeans(w: Wire, blobs: seq<Blob>)
    ensures Linked(w, blobs) <==> exists k :: 1 <= k && LegacyThenChain(w, blobs, k)
  {
    if Linked(w, blobs) {
      var k := 1;
      while k < |blobs| && !Chained(w, blobs[k])
        invariant 1 <= k
        invariant forall i :: 1 <= i < k && i < |blobs| ==> !Chained(w, blobs[i])
      {
        k := k + 1;
      }
      forall i | 1 <= i < k && i < |blobs|
        ensures w.parse(blobs[i]).Some? && w.parse(blobs[i]).value.prevHash == None
      {
        assert FlawAt(w, blobs, i) == None;
      }
      forall i | k <= i < |blobs|
        ensures w.parse(blobs[i]).Some? && w.parse(blobs[i]).value.prevHash == Some(w.hash(blobs[i - 1]))
      {
        assert FlawAt(w, blobs, i) == None && Chained(w, blobs[k]);
        assert k < i ==> Started(w, blobs, i);
      }
      assert LegacyThenChain(w, blobs, k);
    }
    if k :| 1 <= k && LegacyThenChain(w, blobs, k) {
      forall i | 1 <= i < |blobs| ensures FlawAt(w, blobs, i) == None {
        if i < k {
          forall j | 1 <= j < i ensures !Chained(w, blobs[j]) {}
        }
      }
    }
  }

  // -------------------------------------------------------------------------------- tampering

  lemma PrefixLinked(w: Wire, blobs: seq<Blob>, k: nat)
    requires k <= |blobs| && Linked(w, blobs)
    ensures Linked(w, blobs[..k])
  {
    forall i | 1 <= i < k ensures FlawAt(w, blobs[..k], i) == None {
      assert FlawAt(w, blobs, i) == None;
      if j :| 1 <= j < i && Chained(w, blobs[..k][j]) { assert Chained(w, blobs[j]); }
    }
  }

  /** Cutting rows off the front or off the back is never seen. */
  lemma CutsAreUnseen(w: Wire, blobs: seq<Blob>, k: nat)
    requires k <= |blobs| && Linked(w, blobs)
    ensures Linked(w, blobs[..k]) && Linked(w, blobs[k..])
  {
    PrefixLinked(w, blobs, k);
    var rest := blobs[k..];
    forall i | 1 <= i < |rest| ensures FlawAt(w, rest, i) == None {
      assert FlawAt(w, blobs, k + i) == None && rest[i] == blobs[k + i] && rest[i - 1] == blobs[k + i - 1];
      if j :| 1 <= j < i && Chained(w, rest[j]) { assert Chained(w, blobs[k + j]); }
    }
  }

  ghost predicate FullyChained(w: Wire, blobs: seq<Blob>) {
    forall i :: 1 <= i < |blobs| ==> Chained(w, blobs[i])
  }

  /**
   * Two fully chained logs that both check out and end in the same row agree row by row from the
   * end: no edit, swap, insertion or deletion in the middle goes unseen.
   */
  lemma {:induction false} SameEndSameLog(w: Wire, a: seq<Blob>, b: seq<Blob>)
    requires 0 < |a| <= |b| && a[|a| - 1] == b[|b| - 1]
    requires Linked(w, a) && Linked(w, b) && FullyChained(w, a) && FullyChained(w, b)
    requires NoCollision(w, a + b)
    ensures a == b[|b| - |a|..]
    decreases |a|
  {
    var m, n := |a| - 1, |b| - 1;
    if m > 0 {
      PredecessorsAgree(w, a, b);
      PrefixLinked(w, a, m);
      PrefixLinked(w, b, n);
      PrefixCollision(w, a, b, m, n);
      SameEndSameLog(w, a[..m], b[..n]);
      assert a == a[..m] + [a[m]] && b[|b| - |a|..] == b[..n][n - m..] + [b[n]];
    }
  }

  lemma PredecessorsAgree(w: Wire, a: seq<Blob>, b: seq<Blob>)
    requires 1 < |a| && 1 < |b| && a[|a| - 1] == b[|b| - 1] && Chained(w, a[|a| - 1])
    requires Linked(w, a) && Linked(w, b) && NoCollision(w, a + b)
    ensures a[|a| - 2] == b[|b| - 2]
  {
    assert FlawAt(w, a, |a| - 1) == None && FlawAt(w, b, |b| - 1) == None;
    assert (a + b)[|a| - 2] == a[|a| - 2] && (a + b)[|a| + |b| - 2] == b[|b| - 2];
  }

  lemma PrefixCollision(w: Wire, a: seq<Blob>, b: seq<Blob>, m: nat, n: nat)
    requires NoCollision(w, a + b) && m <= |a| && n <= |b|
    ensures NoCollision(w, a[..m] + b[..n])
  {
    SubsetCollision(w, a[..m] + b[..n], a + b);
  }

  lemma SubsetCollision(w: Wire, few: seq<Blob>, many: seq<Blob>)
    requires NoCollision(w, many) && forall x :: x in few ==> x in many
    ensures NoCollision(w, few)
  {
    forall i, j | 0 <= i < |few| && 0 <= j < |few| && w.hash(few[i]) == w.hash(few[j]) ensures few[i] == few[j] {
      assert few[i] in many && few[j] in many;
    }
  }

  /** In a chain that begins with an unlinked row, no linked row repeats an earlier one. */
  lemma {:induction false} ChainedRowsAreDistinct(w: Wire, blobs: seq<Blob>, i: nat, j: nat)
    requires Linked(w, blobs) && NoCollision(w, blobs) && i < j < |blobs|
    requires !Chained(w, blobs[0]) && Chained(w, blobs[j])
    ensures blobs[i] != blobs[j]
  {
    if 0 < i && blobs[i] == blobs[j] {
      assert FlawAt(w, blobs, i) == None && FlawAt(w, blobs, j) == None && FlawAt(w, blobs, j - 1) == None;
      assert blobs[i - 1] == blobs[j - 1];
      if i < j - 1 { assert Started(w, blobs, j - 1); }
      ChainedRowsAreDistinct(w, blobs, i - 1, j - 1);
    }
  }

  // ------------------------------------------------------------------------------------- keys

  const COLON: nat := 10

  /** The last `width` decimal digits of n, most significant first. */
  function Digits(n: nat, width: nat): (r: Key)
    ensures |r| == width
  {
    if width == 0 then [] else Digits(n / 10, width - 1) + [n % 10]
  }

  function Pow10(n: nat): (r: nat)
    ensures r > 0
  {
    if n == 0 then 1 else 10 * Pow10(n - 1)
  }

  /** How many digits a sequence number takes when padded to at least six. */
  function SeqWidth(n: nat): (r: nat)
    ensures r >= 6 && n < Pow10(r)
  {
    if n < 1_000_000 then 6 else 1 + SeqWidth(n / 10)
  }

  function KeyOf(width: nat, timestamp: nat, seqno: nat): Key {
    Digits(timestamp, width) + [COLON] + Digits(seqno, SeqWidth(seqno))
  }

  /** Twenty digits of time, a colon (which sorts after the digits), six or more digits of sequence number. */
  function RowKey(timestamp: nat, seqno: nat): Key { KeyOf(20, timestamp, seqno) }

  predicate Below(a: nat, b: nat) { a < b }

  predicate KeyLess(a: Key, b: Key) { LexLess(Below, a, b) }

  lemma {:induction false} LexOfSplit(a: Key, b: Key, x: Key, y: Key)
    requires |a| == |b|
    ensures KeyLess(a + x, b + y) <==> KeyLess(a, b) || (a == b && KeyLess(x, y))
    decreases |a|
  {
    if a == [] {
      assert a + x == x && b + y == y;
    } else {
      assert (a + x)[1..] == a[1..] + x && (b + y)[1..] == b[1..] + y;
      assert a == [a[0]] + a[1..] && b == [b[0]] + b[1..];
      LexOfSplit(a[1..], b[1..], x, y);
    }
  }

  lemma OneDigit(x: nat, y: nat)
    ensures KeyLess([x], [y]) <==> x < y
  {
    var a: Key, b: Key := [x], [y];
    assert a[1..] == [] && b[1..] == [];
    assert KeyLess(a, b) <==> Below(a[0], b[0]) || (a[0] == b[0] && LexLess(Below, a[1..], b[1..]));
  }

  lemma SeparatorSplit(a: Key, b: Key, x: Key, y: Key)
    requires |a| == |b|
    ensures KeyLess(a + [COLON] + x, b + [COLON] + y) <==> KeyLess(a, b) || (a == b && KeyLess(x, y))
  {
    LexOfSplit(a + [COLON], b + [COLON], x, y);
    LexOfSplit(a, b, [COLON], [COLON]);
    OneDigit(COLON, COLON);
    assert (a + [COLON])[..|a|] == a && (b + [COLON])[..|b|] == b;
  }

  /** Numbers of one width sort as numbers. */
  lemma {:induction false} DigitsSort(a: nat, b: nat, width: nat)
    requires a < Pow10(width) && b < Pow10(width)
    ensures KeyLess(Digits(a, width), Digits(b, width)) <==> a < b
    ensures Digits(a, width) == Digits(b, width) <==> a == b
  {
    if width > 0 {
      DigitsSort(a / 10, b / 10, width - 1);
      LexOfSplit(Digits(a / 10, width - 1), Digits(b / 10, width - 1), [a % 10], [b % 10]);
      OneDigit(a % 10, b % 10);
      assert Digits(a, width)[..width - 1] == Digits(a / 10, width - 1) && Digits(a, width)[width - 1] == a % 10;
      assert Digits(b, width)[..width - 1] == Digits(b / 10, width - 1) && Digits(b, width)[width - 1] == b % 10;
    }
  }

  /** A number without its last `extra` digits. */
  function Lead(n: nat, extra: nat): nat {
    if extra == 0 then n else Lead(n / 10, extra - 1)
  }

  lemma {:induction false} LeadingDigits(n: nat, width: nat, extra: nat)
    ensures Digits(n, width + extra)[..width] == Digits(Lead(n, extra), width)
  {
    if extra > 0 {
      LeadingDigits(n / 10, width, extra - 1);
      assert Digits(n, width + extra)[..width] == Digits(n / 10, width + extra - 1)[..width];
    }
  }

  lemma {:induction false} LeadFits(n: nat, width: nat, extra: nat)
    requires n < Pow10(width + extra)
    ensures Lead(n, extra) < Pow10(width)
  {
    if extra > 0 { LeadFits(n / 10, width, extra - 1); }
  }

  /**
   * Keys sort by time, and inside one second by sequence number only while the padded widths agree
   * or the longer number's leading digits are no smaller.
   */
  lemma KeysSortIff(width: nat, t: nat, u: nat, m: nat, n: nat)
    requires t < Pow10(width) && u < Pow10(width) && m < n
    ensures t < u ==> KeyLess(KeyOf(width, t, m), KeyOf(width, u, n)) && KeyLess(KeyOf(width, t, n), KeyOf(width, u, m))
    ensures KeyLess(KeyOf(width, t, m), KeyOf(width, t, n)) <==>
              (SeqWidth(m) < SeqWidth(n) ==> m <= Lead(n, SeqWidth(n) - SeqWidth(m)))
  {
    DigitsSort(t, u, width);
    KeySplit(width, t, u, m, n);
    KeySplit(width, t, u, n, m);
    DigitsSort(t, t, width);
    KeySplit(width, t, t, m, n);
    SequenceDigitsSort(m, n);
  }

  lemma KeySplit(width: nat, t: nat, u: nat, m: nat, n: nat)
    ensures KeyLess(KeyOf(width, t, m), KeyOf(width, u, n)) <==>
              KeyLess(Digits(t, width), Digits(u, width)) ||
              (Digits(t, width) == Digits(u, width) && KeyLess(Digits(m, SeqWidth(m)), Digits(n, SeqWidth(n))))
  {
    SeparatorSplit(Digits(t, width), Digits(u, width), Digits(m, SeqWidth(m)), Digits(n, SeqWidth(n)));
  }

  lemma {:induction false} WidthGrows(m: nat, n: nat)
    requires m <= n
    ensures SeqWidth(m) <= SeqWidth(n)
  {
    if m >= 1_000_000 { WidthGrows(m / 10, n / 10); }
  }

  lemma SequenceDigitsSort(m: nat, n: nat)
    requires m < n
    ensures KeyLess(Digits(m, SeqWidth(m)), Digits(n, SeqWidth(n))) <==>
              (SeqWidth(m) < SeqWidth(n) ==> m <= Lead(n, SeqWidth(n) - SeqWidth(m)))
  {
    WidthGrows(m, n);
    if SeqWidth(m) == SeqWidth(n) {
      DigitsSort(m, n, SeqWidth(m));
    } else {
      ShorterFirst(m, SeqWidth(m), n, SeqWidth(n) - SeqWidth(m));
    }
  }

  lemma ShorterFirst(m: nat, width: nat, n: nat, extra: nat)
    requires 0 < extra && m < Pow10(width) && n < Pow10(width + extra)
    ensures KeyLess(Digits(m, width), Digits(n, width + extra)) <==> m <= Lead(n, extra)
  {
    LeadingDigits(n, width, extra);
    LeadFits(n, width, extra);
    DigitsSort(m, Lead(n, extra), width);
    PrefixThenMore(Digits(m, width), Digits(n, width + extra));
  }

  lemma PrefixThenMore(a: Key, b: Key)
    requires |a| < |b|
    ensures KeyLess(a, b) <==> KeyLess(a, b[..|a|]) || a == b[..|a|]
  {
    assert b == b[..|a|] + b[|a|..] && a + [] == a;
    LexOfSplit(a, b[..|a|], [], b[|a|..]);
  }

  /**
   * Numbers count over the whole process, not over a second: whenever the millionth and the one before it
   * are used within one second, for one user, the newer row sorts before the older one.
   */
  lemma SequenceOverflowsItsPadding(width: nat, t: nat)
    requires t < Pow10(width)
    ensures !KeyLess(KeyOf(width, t, 999_999), KeyOf(width, t, 1_000_000))
  {
    KeysSortIff(width, t, t, 999_999, 1_000_000);
    assert SeqWidth(1_000_000) == 7 && SeqWidth(999_999) == 6 && Lead(1_000_000, 1) == 100_000;
  }

  /** A restart counts from zero again: in one second, that key is taken or sorts below every other one. */
  lemma RestartSortsFirst(width: nat, t: nat, n: nat)
    requires t < Pow10(width)
    ensures n > 0 <==> KeyLess(KeyOf(width, t, 0), KeyOf(width, t, n))
    ensures n > 0 <==> KeyOf(width, t, 0) != KeyOf(width, t, n)
  {
    KeyOrderFacts(KeyOf(width, t, 0), KeyOf(width, t, n));
    KeyOrderFacts(KeyOf(width, t, 0), KeyOf(width, t, 0));
    if n > 0 { KeysSortIff(width, t, t, 0, n); }
  }

  /** Real row keys of times below 10^20 sort by time, and within one second as far as the padding carries. */
  lemma RowKeysSortIff(t: nat, u: nat, m: nat, n: nat)
    requires t < Pow10(20) && u < Pow10(20) && m < n
    ensures t < u ==> KeyLess(RowKey(t, m), RowKey(u, n)) && KeyLess(RowKey(t, n), RowKey(u, m))
    ensures n < 1_000_000 ==> KeyLess(RowKey(t, m), RowKey(t, n)) && |RowKey(t, n)| == 27
  {
    KeysSortIff(20, t, u, m, n);
  }

  // -------------------------------------------------------------------------------- appending

  /** A stored row; `plain` is what decrypting it gives. */
  datatype Row = Row(key: Key, plain: Option<Blob>)

  ghost predicate InKeyOrder(rows: seq<Row>) {
    forall i, j :: 0 <= i < j < |rows| ==> KeyLess(rows[i].key, rows[j].key)
  }

  function Blobs(rows: seq<Row>): seq<Blob> {
    if rows == [] then [] else (if rows[0].plain.Some? then [rows[0].plain.value] else []) + Blobs(rows[1..])
  }

  function Dropped(rows: seq<Row>): nat {
    if rows == [] then 0 else (if rows[0].plain.Some? then 0 else 1) + Dropped(rows[1..])
  }

  /** The row an append stores: linked to whatever row has the highest key. */
  function NewRow(w: Wire, rows: seq<Row>, key: Key, event: Event): Row {
    var prev := if rows == [] || rows[|rows| - 1].plain.None? then None else Some(w.hash(rows[|rows| - 1].plain.value));
    Row(key, Some(w.encode(event.(prevHash := prev))))
  }

  /** The store keeps one row a key, in key order. */
  function Put(rows: seq<Row>, row: Row): seq<Row> {
    if rows == [] then [row]
    else if rows[0].key == row.key then [row] + rows[1..]
    else if KeyLess(row.key, rows[0].key) then [row] + rows
    else [rows[0]] + Put(rows[1..], row)
  }

  lemma KeyOrderFacts(a: Key, b: Key)
    ensures KeyLess(a, b) || KeyLess(b, a) || a == b
    ensures !(KeyLess(a, b) && KeyLess(b, a))
  {
    LexIsTotal(Below, a, b);
    LexIsAsymmetric(Below, a, b);
  }

  /** Where a fresh key lands. */
  function Landing(rows: seq<Row>, key: Key): (p: nat)
    ensures p <= |rows|
  {
    if rows == [] || KeyLess(key, rows[0].key) then 0 else 1 + Landing(rows[1..], key)
  }

  lemma {:induction false} PutLands(rows: seq<Row>, row: Row)
    requires forall i :: 0 <= i < |rows| ==> rows[i].key != row.key
    ensures var p := Landing(rows, row.key); Put(rows, row) == rows[..p] + [row] + rows[p..]
    decreases |rows|
  {
    if rows != [] && !KeyLess(row.key, rows[0].key) {
      PutLands(rows[1..], row);
      var q := Landing(rows[1..], row.key);
      assert rows[..q + 1] == [rows[0]] + rows[1..][..q] && rows[q + 1..] == rows[1..][q..];
    }
  }

  lemma {:induction false} LandingSplits(rows: seq<Row>, key: Key, i: nat)
    requires InKeyOrder(rows) && i < |rows| && forall j :: 0 <= j < |rows| ==> rows[j].key != key
    ensures KeyLess(rows[i].key, key) <==> i < Landing(rows, key)
    ensures KeyLess(key, rows[i].key) <==> Landing(rows, key) <= i
    decreases |rows|
  {
    KeyOrderFacts(key, rows[0].key);
    KeyOrderFacts(key, rows[i].key);
    if KeyLess(key, rows[0].key) {
      if i > 0 { LexIsTransitive(Below, key, rows[0].key, rows[i].key); }
    } else if i > 0 {
      LandingSplits(rows[1..], key, i - 1);
    }
  }

  lemma {:induction false} AllReadable(rows: seq<Row>)
    requires Dropped(rows) == 0
    ensures |Blobs(rows)| == |rows|
    ensures forall i :: 0 <= i < |rows| ==> rows[i].plain == Some(Blobs(rows)[i])
  {
    if rows != [] {
      AllReadable(rows[1..]);
      forall i | 0 < i < |rows| ensures rows[i].plain == Some(Blobs(rows)[i]) {
        assert rows[i] == rows[1..][i - 1] && Blobs(rows)[i] == Blobs(rows[1..])[i - 1];
      }
    }
  }

  lemma {:induction false} BlobsOfConcat(a: seq<Row>, b: seq<Row>)
    ensures Blobs(a + b) == Blobs(a) + Blobs(b) && Dropped(a + b) == Dropped(a) + Dropped(b)
  {
    if a == [] {
      assert a + b == b;
    } else {
      var first := if a[0].plain.Some? then [a[0].plain.value] else [];
      assert (a + b)[0] == a[0] && (a + b)[1..] == a[1..] + b;
      BlobsOfConcat(a[1..], b);
      assert first + (Blobs(a[1..]) + Blobs(b)) == (first + Blobs(a[1..])) + Blobs(b);
    }
  }

  lemma ReadableLength(rows: seq<Row>)
    requires Dropped(rows) == 0
    ensures |Blobs(rows)| == |rows|
  {
    AllReadable(rows);
  }

  lemma PutBlobs(rows: seq<Row>, row: Row, p: nat)
    requires Dropped(rows) == 0 && row.plain.Some? && p <= |rows|
    ensures var b := Blobs(rows);
            var after := rows[..p] + [row] + rows[p..];
            |b| == |rows| && Dropped(after) == 0 && Blobs(after) == b[..p] + [row.plain.value] + b[p..]
  {
    assert rows == rows[..p] + rows[p..];
    BlobsOfConcat(rows[..p], rows[p..]);
    BlobsOfConcat(rows[..p], [row]);
    BlobsOfConcat(rows[..p] + [row], rows[p..]);
    ReadableLength(rows[..p]);
    ReadableLength(rows);
    assert Blobs([row]) == [row.plain.value] + Blobs([]);
    assert Blobs(rows)[..p] == Blobs(rows[..p]) && Blobs(rows)[p..] == Blobs(rows[p..]);
  }

  /** The link a new row carries. */
  ghost predicate LinksTo(w: Wire, blobs: seq<Blob>, b: Blob) {
    && w.parse(b).Some?
    && w.parse(b).value.prevHash == if blobs == [] then None else Some(w.hash(blobs[|blobs| - 1]))
  }

  lemma AppendAtTheEnd(w: Wire, blobs: seq<Blob>, b: Blob)
    requires Linked(w, blobs) && LinksTo(w, blobs, b)
    ensures Linked(w, blobs + [b])
    ensures ChainedCount(w, blobs + [b]) == ChainedCount(w, blobs) + if blobs == [] then 0 else 1
  {
    var after := blobs + [b];
    forall i | 1 <= i < |after| ensures FlawAt(w, after, i) == None {
      if i < |blobs| {
        assert FlawAt(w, blobs, i) == None;
        if j :| 1 <= j < i && Chained(w, after[j]) { assert Chained(w, blobs[j]); }
      }
    }
    assert after[..|blobs|] == blobs;
  }

  lemma AppendAtTheFront(w: Wire, blobs: seq<Blob>, b: Blob)
    requires Linked(w, blobs) && blobs != []
    requires w.parse(blobs[0]).Some? && w.parse(blobs[0]).value.prevHash == None
    ensures Linked(w, [b] + blobs)
  {
    var after := [b] + blobs;
    forall i | 1 <= i < |after| ensures FlawAt(w, after, i) == None {
      assert after[i] == blobs[i - 1];
      if i > 1 {
        assert FlawAt(w, blobs, i - 1) == None && after[i - 1] == blobs[i - 2];
        if j :| 1 <= j < i && Chained(w, after[j]) {
          assert Chained(w, blobs[j - 1]);
          assert Started(w, blobs, i - 1);
        }
      }
    }
  }

  lemma AppendInTheMiddle(w: Wire, blobs: seq<Blob>, b: Blob, p: nat)
    requires Linked(w, blobs) && NoCollision(w, blobs) && LinksTo(w, blobs, b)
    requires 0 < p < |blobs| && !Chained(w, blobs[0])
    ensures !Linked(w, blobs[..p] + [b] + blobs[p..])
  {
    var after := blobs[..p] + [b] + blobs[p..];
    var last := |blobs| - 1;
    if Linked(w, after) {
      assert FlawAt(w, after, p) == None && FlawAt(w, after, p + 1) == None;
      assert after[p] == b && after[p + 1] == blobs[p] && after[p - 1] == blobs[p - 1];
      assert blobs[p - 1] == blobs[last];
      assert Started(w, after, p + 1);
      if p < last {
        assert Started(w, blobs, last);
        assert FlawAt(w, blobs, last) == None;
      }
      ChainedRowsAreDistinct(w, blobs, p - 1, last);
    }
  }

  ghost predicate FirstIsUnlinked(w: Wire, blobs: seq<Blob>) {
    blobs != [] ==> w.parse(blobs[0]).Some? && w.parse(blobs[0]).value.prevHash == None
  }

  lemma PlacedVerifiesIff(w: Wire, blobs: seq<Blob>, b: Blob, p: nat)
    requires Linked(w, blobs) && NoCollision(w, blobs) && FirstIsUnlinked(w, blobs) && LinksTo(w, blobs, b)
    requires p <= |blobs|
    ensures Linked(w, blobs[..p] + [b] + blobs[p..]) <==> p == |blobs| || p == 0
  {
    if p == |blobs| {
      AppendAtTheEnd(w, blobs, b);
      assert blobs[..p] + [b] + blobs[p..] == blobs + [b];
    } else if p == 0 {
      AppendAtTheFront(w, blobs, b);
      assert blobs[..p] + [b] + blobs[p..] == [b] + blobs;
    } else {
      AppendInTheMiddle(w, blobs, b, p);
    }
  }

  /** The key sorts after every row of the log. */
  ghost predicate Above(rows: seq<Row>, key: Key) {
    forall i :: 0 <= i < |rows| ==> KeyLess(rows[i].key, key)
  }

  ghost predicate Under(rows: seq<Row>, key: Key) {
    forall i :: 0 <= i < |rows| ==> KeyLess(key, rows[i].key)
  }

  lemma LandingEnds(rows: seq<Row>, key: Key)
    requires InKeyOrder(rows) && forall j :: 0 <= j < |rows| ==> rows[j].key != key
    ensures Landing(rows, key) == |rows| <==> Above(rows, key)
    ensures Landing(rows, key) == 0 <==> Under(rows, key)
  {
    forall i | 0 <= i < |rows|
      ensures KeyLess(rows[i].key, key) <==> i < Landing(rows, key)
      ensures KeyLess(key, rows[i].key) <==> Landing(rows, key) <= i
    {
      LandingSplits(rows, key, i);
    }
    if rows != [] { LandingSplits(rows, key, 0); }
    var p := Landing(rows, key);
    if p < |rows| { LandingSplits(rows, key, p); }
  }

  /**
   * After an append under a fresh key the log still checks out exactly when that key sorts after
   * every row, or before every row; then the new row goes unchecked.
   */
  lemma AppendVerifiesIff(w: Wire, rows: seq<Row>, key: Key, event: Event)
    requires RoundTrips(w) && InKeyOrder(rows) && Dropped(rows) == 0
    requires Linked(w, Blobs(rows)) && NoCollision(w, Blobs(rows)) && FirstIsUnlinked(w, Blobs(rows))
    requires forall i :: 0 <= i < |rows| ==> rows[i].key != key
    ensures Linked(w, Blobs(Put(rows, NewRow(w, rows, key, event)))) <==> Above(rows, key) || Under(rows, key)
  {
    var row, p := NewRow(w, rows, key, event), Landing(rows, key);
    AllReadable(rows);
    PutLands(rows, row);
    PutBlobs(rows, row, p);
    PlacedVerifiesIff(w, Blobs(rows), row.plain.value, p);
    LandingEnds(rows, key);
  }

  lemma {:induction false} PutReplaces(rows: seq<Row>, row: Row, p: nat)
    requires InKeyOrder(rows) && p < |rows| && rows[p].key == row.key
    ensures Put(rows, row) == rows[p := row]
  {
    if p > 0 {
      assert KeyLess(rows[0].key, rows[p].key);
      KeyOrderFacts(rows[0].key, row.key);
      KeyOrderFacts(row.key, row.key);
      PutReplaces(rows[1..], row, p - 1);
    }
  }

  lemma {:induction false} ReplacedBlobs(rows: seq<Row>, row: Row, p: nat)
    requires Dropped(rows) == 0 && row.plain.Some? && p < |rows|
    ensures |Blobs(rows)| == |rows| && Blobs(rows[p := row]) == Blobs(rows)[p := row.plain.value]
    decreases |rows|
  {
    var after := rows[p := row];
    AllReadable(rows[1..]);
    if p == 0 {
      assert after[1..] == rows[1..];
    } else {
      assert after[1..] == rows[1..][p - 1 := row];
      ReplacedBlobs(rows[1..], row, p - 1);
    }
  }

  /** A linked row names the one before it. */
  lemma NamesPrevious(w: Wire, blobs: seq<Blob>, i: nat)
    requires Linked(w, blobs) && 1 <= i < |blobs| && Chained(w, blobs[i])
    ensures w.parse(blobs[i]).value.prevHash == Some(w.hash(blobs[i - 1]))
  {
    assert FlawAt(w, blobs, i) == None;
  }

  lemma DifferentHashes(w: Wire, blobs: seq<Blob>, b: Blob, i: nat)
    requires NoCollision(w, blobs + [b]) && i < |blobs| && blobs[i] != b
    ensures w.hash(blobs[i]) != w.hash(b)
  {
    assert (blobs + [b])[i] == blobs[i] && (blobs + [b])[|blobs|] == b;
  }

  lemma ReplacedVerifiesIff(w: Wire, blobs: seq<Blob>, b: Blob, p: nat)
    requires Linked(w, blobs) && NoCollision(w, blobs + [b]) && FirstIsUnlinked(w, blobs) && LinksTo(w, blobs, b)
    requires FullyChained(w, blobs) && p < |blobs|
    ensures Linked(w, blobs[p := b]) <==> |blobs| == 1
  {
    var after, last := blobs[p := b], |blobs| - 1;
    if last > 0 {
      if p == 0 {
        NamesPrevious(w, blobs, 1);
        DifferentHashes(w, blobs, b, 0);
      } else {
        SubsetCollision(w, blobs, blobs + [b]);
        ChainedRowsAreDistinct(w, blobs, p - 1, last);
        assert w.hash(blobs[p - 1]) != w.hash(blobs[last]);
      }
      if Linked(w, after) {
        NamesPrevious(w, after, if p == 0 then 1 else p);
        assert false;
      }
    }
  }

  lemma NewRowLinks(w: Wire, rows: seq<Row>, key: Key, event: Event)
    requires RoundTrips(w) && Dropped(rows) == 0
    ensures var row := NewRow(w, rows, key, event);
            row.key == key && row.plain.Some? && LinksTo(w, Blobs(rows), row.plain.value)
  {
    AllReadable(rows);
  }

  /**
   * An append under a key that is taken replaces that row. In a log linked from its second row on, the
   * loss shows every time, except in a log of one row.
   */
  lemma OverwriteVerifiesIff(w: Wire, rows: seq<Row>, p: nat, event: Event)
    requires RoundTrips(w) && InKeyOrder(rows) && Dropped(rows) == 0 && p < |rows|
    requires Linked(w, Blobs(rows)) && FirstIsUnlinked(w, Blobs(rows)) && FullyChained(w, Blobs(rows))
    requires var row := NewRow(w, rows, rows[p].key, event); NoCollision(w, Blobs(rows) + [row.plain.value])
    ensures var row := NewRow(w, rows, rows[p].key, event);
            Put(rows, row) == rows[p := row] && (Linked(w, Blobs(Put(rows, row))) <==> |rows| == 1)
  {
    var row := NewRow(w, rows, rows[p].key, event);
    NewRowLinks(w, rows, rows[p].key, event);
    PutReplaces(rows, row, p);
    ReplacedBlobs(rows, row, p);
    ReplacedVerifiesIff(w, Blobs(rows), row.plain.value, p);
  }

  datatype Entry = Entry(key: Key, event: Event)

  function AppendAll(w: Wire, rows: seq<Row>, entries: seq<Entry>): seq<Row>
    decreases |entries|
  {
    if entries == [] then rows
    else
      var e := entries[0];
      AppendAll(w, Put(rows, NewRow(w, rows, e.key, e.event)), entries[1..])
  }

  /** Every key is above all the rows and above the keys before it. */
  ghost predicate Ascending(rows: seq<Row>, entries: seq<Entry>) {
    && (forall i, e {:trigger rows[i], entries[e]} ::
          0 <= i < |rows| && 0 <= e < |entries| ==> KeyLess(rows[i].key, entries[e].key))
    && (forall d, e :: 0 <= d < e < |entries| ==> KeyLess(entries[d].key, entries[e].key))
  }

  /** Any run of appends in key order checks out, every row after the first counted as chained. */
  lemma {:induction false} AppendsVerify(w: Wire, rows: seq<Row>, entries: seq<Entry>)
    requires RoundTrips(w) && InKeyOrder(rows) && Dropped(rows) == 0 && Linked(w, Blobs(rows)) && Ascending(rows, entries)
    ensures var after := AppendAll(w, rows, entries);
            && InKeyOrder(after) && Dropped(after) == 0 && |after| == |rows| + |entries|
            && Linked(w, Blobs(after))
            && ChainedCount(w, Blobs(after)) ==
                 ChainedCount(w, Blobs(rows)) + |entries| - if rows == [] && entries != [] then 1 else 0
    decreases |entries|
  {
    if entries != [] {
      var e := entries[0];
      AppendOneInOrder(w, rows, e);
      AppendsVerify(w, Put(rows, NewRow(w, rows, e.key, e.event)), entries[1..]);
    }
  }

  lemma AppendOneInOrder(w: Wire, rows: seq<Row>, e: Entry)
    requires RoundTrips(w) && InKeyOrder(rows) && Dropped(rows) == 0 && Linked(w, Blobs(rows)) && Above(rows, e.key)
    ensures var after := Put(rows, NewRow(w, rows, e.key, e.event));
            && after == rows + [NewRow(w, rows, e.key, e.event)]
            && InKeyOrder(after) && Dropped(after) == 0
            && Linked(w, Blobs(after))
            && ChainedCount(w, Blobs(after)) == ChainedCount(w, Blobs(rows)) + if rows == [] then 0 else 1
  {
    var row := NewRow(w, rows, e.key, e.event);
    AllReadable(rows);
    PutAtTheEnd(rows, row);
    AppendAtTheEnd(w, Blobs(rows), row.plain.value);
  }

  lemma PutAtTheEnd(rows: seq<Row>, row: Row)
    requires InKeyOrder(rows) && Dropped(rows) == 0 && Above(rows, row.key) && row.plain.Some?
    ensures Put(rows, row) == rows + [row] && InKeyOrder(rows + [row])
    ensures Dropped(rows + [row]) == 0 && Blobs(rows + [row]) == Blobs(rows) + [row.plain.value]
  {
    PutAboveAppends(rows, row);
    OneMoreBlob(rows, row);
  }

  lemma {:induction false} PutAboveAppends(rows: seq<Row>, row: Row)
    requires Above(rows, row.key)
    ensures Put(rows, row) == rows + [row]
  {
    if rows != [] {
      KeyOrderFacts(rows[0].key, row.key);
      PutAboveAppends(rows[1..], row);
      assert rows + [row] == [rows[0]] + (rows[1..] + [row]);
    }
  }

  lemma OneMoreBlob(rows: seq<Row>, row: Row)
    requires row.plain.Some?
    ensures Dropped(rows + [row]) == Dropped(rows) && Blobs(rows + [row]) == Blobs(rows) + [row.plain.value]
  {
    BlobsOfConcat(rows, [row]);
    assert [row][1..] == [];
    assert Blobs([row]) == [row.plain.value] + Blobs([]);
  }

  lemma PutSkips(rows: seq<Row>, k: nat, row: Row)
    requires k < |rows| && rows[k].key != row.key && !KeyLess(row.key, rows[k].key)
    ensures rows[..k + 1] + Put(rows[k + 1..], row) == rows[..k] + Put(rows[k..], row)
  {
    assert rows[k..][1..] == rows[k + 1..] && rows[..k + 1] == rows[..k] + [rows[k]];
    assert Put(rows[k..], row) == [rows[k]] + Put(rows[k + 1..], row);
  }

  lemma PutStops(rows: seq<Row>, k: nat, row: Row)
    requires k <= |rows| && (k < |rows| ==> rows[k].key == row.key || KeyLess(row.key, rows[k].key))
    ensures rows[..k] + Put(rows[k..], row) ==
              rows[..k] + [row] + if k < |rows| && rows[k].key == row.key then rows[k + 1..] else rows[k..]
  {
    if k < |rows| { assert rows[k..][1..] == rows[k + 1..] && rows[k..][0] == rows[k]; }
  }

  // ------------------------------------------------------------------- histories of fresh-key appends

  /** The log a history of appends leaves. */
  function Built(w: Wire, entries: seq<Entry>): seq<Row> { AppendAll(w, [], entries) }

  lemma {:induction false} AppendAllSnoc(w: Wire, rows: seq<Row>, entries: seq<Entry>)
    requires entries != []
    ensures var n := |entries| - 1;
            var before := AppendAll(w, rows, entries[..n]);
            AppendAll(w, rows, entries) == Put(before, NewRow(w, before, entries[n].key, entries[n].event))
    decreases |entries|
  {
    var e, n := entries[0], |entries| - 1;
    if n > 0 {
      AppendAllSnoc(w, Put(rows, NewRow(w, rows, e.key, e.event)), entries[1..]);
      assert entries[1..][..n - 1] == entries[..n][1..];
    }
  }

  ghost predicate FreshKeys(entries: seq<Entry>) {
    forall i, j :: 0 <= i < j < |entries| ==> entries[i].key != entries[j].key
  }

  ghost predicate HasKey(entries: seq<Entry>, key: Key) {
    exists i :: 0 <= i < |entries| && entries[i].key == key
  }

  /** An entry whose key sorts after, or before, all the earlier ones. */
  ghost predicate Highest(entries: seq<Entry>, k: nat)
    requires k < |entries|
  {
    forall j :: 0 <= j < k ==> KeyLess(entries[j].key, entries[k].key)
  }

  ghost predicate Lowest(entries: seq<Entry>, k: nat)
    requires k < |entries|
  {
    k > 0 && forall j :: 0 <= j < k ==> KeyLess(entries[k].key, entries[j].key)
  }

  /** Every entry came in at an end, and at most one of them, after the first, at the front. */
  ghost predicate AtEnds(entries: seq<Entry>) {
    && (forall k :: 0 <= k < |entries| ==> Highest(entries, k) || Lowest(entries, k))
    && (forall j, k :: 0 <= j < k < |entries| ==> !(Lowest(entries, j) && Lowest(entries, k)))
  }

  ghost predicate Fronted(entries: seq<Entry>) {
    exists k :: 0 <= k < |entries| && Lowest(entries, k)
  }

  /** The log checks out after every append of the history. */
  ghost predicate ChecksOutThroughout(w: Wire, entries: seq<Entry>)
    decreases |entries|
  {
    Linked(w, Blobs(Built(w, entries))) && (entries != [] ==> ChecksOutThroughout(w, entries[..|entries| - 1]))
  }

  /** A log that begins with an unlinked row, or with a linked one and then an unlinked one. */
  ghost predicate Begins(w: Wire, blobs: seq<Blob>, fronted: bool) {
    if fronted then |blobs| > 1 && Chained(w, blobs[0]) && FirstIsUnlinked(w, blobs[1..]) else FirstIsUnlinked(w, blobs)
  }

  /** The stored row reads back as the event that was appended, whatever link it was given. */
  ghost predicate Records(w: Wire, row: Row, entry: Entry) {
    && row.key == entry.key && row.plain.Some? && w.parse(row.plain.value).Some?
    && var stored := w.parse(row.plain.value).value;
      && stored.action == entry.event.action && stored.actor == entry.event.actor
      && stored.timestamp == entry.event.timestamp && stored.details == entry.event.details
  }

  ghost predicate Recorded(w: Wire, rows: seq<Row>, entry: Entry) {
    exists i :: 0 <= i < |rows| && Records(w, rows[i], entry)
  }

  ghost predicate IsRecord(w: Wire, row: Row, entries: seq<Entry>) {
    exists k :: 0 <= k < |entries| && Records(w, row, entries[k])
  }

  lemma InsertedRecords(w: Wire, rows: seq<Row>, row: Row, p: nat, entry: Entry)
    requires p <= |rows|
    ensures Recorded(w, rows[..p] + [row] + rows[p..], entry) <==> Recorded(w, rows, entry) || Records(w, row, entry)
  {
    var after := rows[..p] + [row] + rows[p..];
    assert after[p] == row;
    if i :| 0 <= i < |rows| && Records(w, rows[i], entry) { assert after[if i < p then i else i + 1] == rows[i]; }
    if i :| 0 <= i < |after| && Records(w, after[i], entry) {
      assert after[i] == if i < p then rows[i] else if i == p then row else rows[i - 1];
    }
  }

  /** However the keys fall, the log holds exactly what was appended: action, actor, time and details, under its key. */
  lemma {:induction false} LogHoldsWhatWasAppended(w: Wire, entries: seq<Entry>)
    requires RoundTrips(w) && FreshKeys(entries)
    ensures forall k :: 0 <= k < |entries| ==> Recorded(w, Built(w, entries), entries[k])
    ensures forall i :: 0 <= i < |Built(w, entries)| ==> IsRecord(w, Built(w, entries)[i], entries)
    decreases |entries|
  {
    if entries != [] {
      var n := |entries| - 1;
      var rows, e := Built(w, entries[..n]), entries[n];
      var row := NewRow(w, rows, e.key, e.event);
      LogHoldsWhatWasAppended(w, entries[..n]);
      BuiltIs(w, entries[..n]);
      NotYetThere(entries, n, rows);
      AppendAllSnoc(w, [], entries);
      PutLands(rows, row);
      var p := Landing(rows, e.key);
      assert Built(w, entries) == rows[..p] + [row] + rows[p..] && Records(w, row, e);
      AllRecorded(w, rows, row, p, entries);
      forall i | 0 <= i < |Built(w, entries)| ensures IsRecord(w, Built(w, entries)[i], entries) {
        StillRecords(w, rows, row, p, entries, i);
      }
    }
  }

  lemma AllRecorded(w: Wire, rows: seq<Row>, row: Row, p: nat, entries: seq<Entry>)
    requires entries != [] && p <= |rows| && Records(w, row, entries[|entries| - 1])
    requires forall e :: e in entries[..|entries| - 1] ==> Recorded(w, rows, e)
    ensures forall k :: 0 <= k < |entries| ==> Recorded(w, rows[..p] + [row] + rows[p..], entries[k])
  {
    var n := |entries| - 1;
    forall k | 0 <= k < |entries| ensures Recorded(w, rows[..p] + [row] + rows[p..], entries[k]) {
      InsertedRecords(w, rows, row, p, entries[k]);
      if k < n { assert entries[..n][k] == entries[k] && entries[k] in entries[..n]; }
    }
  }

  lemma StillRecords(w: Wire, rows: seq<Row>, row: Row, p: nat, entries: seq<Entry>, i: nat)
    requires entries != [] && p <= |rows| && i <= |rows| && Records(w, row, entries[|entries| - 1])
    requires forall j :: 0 <= j < |rows| ==> IsRecord(w, rows[j], entries[..|entries| - 1])
    ensures IsRecord(w, (rows[..p] + [row] + rows[p..])[i], entries)
  {
    var n := |entries| - 1;
    if i != p {
      var j := if i < p then i else i - 1;
      assert IsRecord(w, rows[j], entries[..n]);
      var k :| 0 <= k < n && Records(w, rows[j], entries[..n][k]);
      assert entries[..n][k] == entries[k];
    }
  }

  /** Every row is either read or counted as dropped. */
  lemma {:induction false} ReadOrDropped(rows: seq<Row>)
    ensures |Blobs(rows)| + Dropped(rows) == |rows|
    ensures Dropped(rows) > 0 <==> exists i :: 0 <= i < |rows| && rows[i].plain == None
  {
    if rows != [] {
      ReadOrDropped(rows[1..]);
      assert forall i :: 0 < i < |rows| ==> rows[i] == rows[1..][i - 1];
    }
  }

  /** After a front landing there is no second one: only a row at the end is accepted. */
  lemma FrontedVerifiesIff(w: Wire, blobs: seq<Blob>, b: Blob, p: nat)
    requires Linked(w, blobs) && NoCollision(w, blobs) && Begins(w, blobs, true) && LinksTo(w, blobs, b) && p <= |blobs|
    ensures Linked(w, blobs[..p] + [b] + blobs[p..]) <==> p == |blobs|
  {
    var after, tail := blobs[..p] + [b] + blobs[p..], blobs[1..];
    if p == |blobs| {
      AppendAtTheEnd(w, blobs, b);
      assert after == blobs + [b];
    } else if p <= 1 {
      assert after[1] == (if p == 0 then blobs[0] else b) && after[2] == blobs[1] && tail[0] == blobs[1];
      assert Chained(w, after[1]);
      assert Started(w, after, 2);
      assert FlawAt(w, after, 2) == Some(MissingLink);
    } else {
      CutsAreUnseen(w, blobs, 1);
      SubsetCollision(w, tail, blobs);
      AppendInTheMiddle(w, tail, b, p - 1);
      assert tail[..p - 1] + [b] + tail[p - 1..] == after[1..];
      if Linked(w, after) { CutsAreUnseen(w, after, 1); }
    }
  }

  lemma BeginningVerifiesIff(w: Wire, blobs: seq<Blob>, b: Blob, p: nat, fronted: bool)
    requires Linked(w, blobs) && NoCollision(w, blobs) && Begins(w, blobs, fronted) && LinksTo(w, blobs, b) && p <= |blobs|
    ensures var after := blobs[..p] + [b] + blobs[p..];
            && (Linked(w, after) <==> p == |blobs| || (p == 0 && !fronted))
            && (Linked(w, after) ==> Begins(w, after, fronted || p < |blobs|))
  {
    var after := blobs[..p] + [b] + blobs[p..];
    if fronted {
      FrontedVerifiesIff(w, blobs, b, p);
      if p == |blobs| { assert after == blobs + [b] && after[1..] == blobs[1..] + [b]; }
    } else {
      PlacedVerifiesIff(w, blobs, b, p);
      if p == |blobs| { assert after == blobs + [b]; } else if p == 0 { assert after[1..] == blobs; }
    }
  }

  lemma {:induction false} BuiltIs(w: Wire, entries: seq<Entry>)
    requires RoundTrips(w) && FreshKeys(entries)
    ensures var rows := Built(w, entries);
            && InKeyOrder(rows) && Dropped(rows) == 0 && |rows| == |entries|
            && forall key :: HasKey(entries, key) <==> HasRow(rows, key)
    decreases |entries|
  {
    if entries != [] {
      var n := |entries| - 1;
      var rows, e := Built(w, entries[..n]), entries[n];
      BuiltIs(w, entries[..n]);
      NotYetThere(entries, n, rows);
      AppendAllSnoc(w, [], entries);
      var row := NewRow(w, rows, e.key, e.event);
      PutKeeps(rows, row);
      NewRowLinks(w, rows, e.key, e.event);
      PutLands(rows, row);
      PutBlobs(rows, row, Landing(rows, e.key));
      forall key ensures HasKey(entries, key) <==> HasRow(Built(w, entries), key) { OneKeyMore(entries, key); }
    }
  }

  ghost predicate HasRow(rows: seq<Row>, key: Key) {
    exists i :: 0 <= i < |rows| && rows[i].key == key
  }

  lemma OneKeyMore(entries: seq<Entry>, key: Key)
    requires entries != []
    ensures HasKey(entries, key) <==> HasKey(entries[..|entries| - 1], key) || entries[|entries| - 1].key == key
  {
    var n := |entries| - 1;
    if i :| 0 <= i < n && entries[..n][i].key == key { assert entries[i].key == key; }
    if i :| 0 <= i < |entries| && entries[i].key == key { assert i < n ==> entries[..n][i].key == key; }
  }

  lemma NotYetThere(entries: seq<Entry>, n: nat, rows: seq<Row>)
    requires FreshKeys(entries) && n < |entries| && forall key :: HasKey(entries[..n], key) <==> HasRow(rows, key)
    ensures forall i :: 0 <= i < |rows| ==> rows[i].key != entries[n].key
  {
    forall j | 0 <= j < n ensures entries[..n][j].key != entries[n].key { assert entries[..n][j] == entries[j]; }
    assert !HasKey(entries[..n], entries[n].key);
    assert !HasRow(rows, entries[n].key);
  }

  /** Putting a row under a fresh key keeps the rows in order and adds just that key. */
  lemma PutKeeps(rows: seq<Row>, row: Row)
    requires InKeyOrder(rows) && forall i :: 0 <= i < |rows| ==> rows[i].key != row.key
    ensures InKeyOrder(Put(rows, row)) && |Put(rows, row)| == |rows| + 1
    ensures forall key :: HasRow(Put(rows, row), key) <==> HasRow(rows, key) || key == row.key
  {
    var p := Landing(rows, row.key);
    PutLands(rows, row);
    forall i | 0 <= i < |rows|
      ensures KeyLess(rows[i].key, row.key) <==> i < p
      ensures KeyLess(row.key, rows[i].key) <==> p <= i
    {
      LandingSplits(rows, row.key, i);
    }
    InsertedInOrder(rows, row, p);
    InsertedKeys(rows, row, p);
  }

  lemma InsertedInOrder(rows: seq<Row>, row: Row, p: nat)
    requires InKeyOrder(rows) && p <= |rows|
    requires forall i :: 0 <= i < |rows| ==> if i < p then KeyLess(rows[i].key, row.key) else KeyLess(row.key, rows[i].key)
    ensures InKeyOrder(rows[..p] + [row] + rows[p..])
  {
    var after := rows[..p] + [row] + rows[p..];
    forall i, j | 0 <= i < j < |after| ensures KeyLess(after[i].key, after[j].key) {
      assert after[i] == if i < p then rows[i] else if i == p then row else rows[i - 1];
      assert after[j] == if j < p then rows[j] else if j == p then row else rows[j - 1];
    }
  }

  lemma InsertedKeys(rows: seq<Row>, row: Row, p: nat)
    requires p <= |rows|
    ensures forall key :: HasRow(rows[..p] + [row] + rows[p..], key) <==> HasRow(rows, key) || key == row.key
  {
    var after := rows[..p] + [row] + rows[p..];
    forall key ensures HasRow(after, key) <==> HasRow(rows, key) || key == row.key {
      assert after[p] == row;
      if i :| 0 <= i < |rows| && rows[i].key == key { assert after[if i < p then i else i + 1] == rows[i]; }
      if i :| 0 <= i < |after| && after[i].key == key {
        assert after[i] == if i < p then rows[i] else if i == p then row else rows[i - 1];
      }
    }
  }

  /** Above or under all the rows means above or under all the earlier entries. */
  lemma EndsAgree(entries: seq<Entry>, n: nat, rows: seq<Row>)
    requires n < |entries| && forall key :: HasKey(entries[..n], key) <==> HasRow(rows, key)
    ensures Above(rows, entries[n].key) <==> Highest(entries, n)
    ensures n > 0 ==> (Under(rows, entries[n].key) <==> Lowest(entries, n))
  {
    forall i | 0 <= i < |rows| ensures exists j :: 0 <= j < n && entries[j].key == rows[i].key {
      assert HasRow(rows, rows[i].key);
      var j :| 0 <= j < n && entries[..n][j].key == rows[i].key;
      assert entries[j].key == rows[i].key;
    }
    forall j | 0 <= j < n ensures exists i :: 0 <= i < |rows| && rows[i].key == entries[j].key {
      assert entries[..n][j].key == entries[j].key;
      assert HasKey(entries[..n], entries[j].key);
    }
  }

  lemma SameEnds(entries: seq<Entry>, n: nat, k: nat)
    requires k < n <= |entries|
    ensures Highest(entries[..n], k) <==> Highest(entries, k)
    ensures Lowest(entries[..n], k) <==> Lowest(entries, k)
  {
    assert entries[..n][k] == entries[k] && forall j :: 0 <= j < k ==> entries[..n][j] == entries[j];
  }

  lemma FrontedSnoc(entries: seq<Entry>)
    requires entries != []
    ensures var n := |entries| - 1; Fronted(entries) <==> Fronted(entries[..n]) || Lowest(entries, n)
  {
    var n := |entries| - 1;
    forall k | 0 <= k < n ensures Lowest(entries[..n], k) <==> Lowest(entries, k) { SameEnds(entries, n, k); }
  }

  lemma NotBoth(entries: seq<Entry>, k: nat)
    requires k < |entries|
    ensures !(Highest(entries, k) && Lowest(entries, k))
  {
    if k > 0 { KeyOrderFacts(entries[0].key, entries[k].key); }
  }

  lemma AtEndsSnoc(entries: seq<Entry>)
    requires entries != []
    ensures var n := |entries| - 1;
            AtEnds(entries) <==> AtEnds(entries[..n]) && (Highest(entries, n) || (Lowest(entries, n) && !Fronted(entries[..n])))
  {
    var n := |entries| - 1;
    var init := entries[..n];
    NotBoth(entries, n);
    forall k | 0 <= k < n
      ensures Highest(init, k) <==> Highest(entries, k)
      ensures Lowest(init, k) <==> Lowest(entries, k)
    {
      SameEnds(entries, n, k);
    }
    if AtEnds(entries) {
      assert AtEnds(init);
    }
    if AtEnds(init) && (Highest(entries, n) || (Lowest(entries, n) && !Fronted(init))) {
      forall j | 0 <= j < n ensures !(Lowest(entries, j) && Lowest(entries, n)) {
        assert Lowest(init, j) ==> Fronted(init);
      }
    }
  }

  /**
   * A history of appends under fresh keys checks out after every append exactly when every key sorts after
   * all the earlier ones, except that one of them may sort before them all.
   */
  lemma {:induction false} HistoryVerifiesIff(w: Wire, entries: seq<Entry>)
    requires RoundTrips(w) && FreshKeys(entries) && NoCollision(w, Blobs(Built(w, entries)))
    ensures ChecksOutThroughout(w, entries) <==> AtEnds(entries)
    ensures AtEnds(entries) ==> Begins(w, Blobs(Built(w, entries)), Fronted(entries))
    decreases |entries|
  {
    if entries == [] {
    } else {
      var n := |entries| - 1;
      var rows, e := Built(w, entries[..n]), entries[n];
      var row := NewRow(w, rows, e.key, e.event);
      BuiltIs(w, entries[..n]);
      NotYetThere(entries, n, rows);
      NewRowLinks(w, rows, e.key, e.event);
      AppendAllSnoc(w, [], entries);
      var p := LandsAt(rows, row);
      SubsetCollision(w, Blobs(rows), Blobs(Put(rows, row)));
      HistoryVerifiesIff(w, entries[..n]);
      AtEndsSnoc(entries);
      FrontedSnoc(entries);
      EndsAgree(entries, n, rows);
      if AtEnds(entries[..n]) {
        BeginningVerifiesIff(w, Blobs(rows), row.plain.value, p, Fronted(entries[..n]));
      }
    }
  }

  /** Where a fresh row lands, in the rows and in their blobs. */
  lemma LandsAt(rows: seq<Row>, row: Row) returns (p: nat)
    requires InKeyOrder(rows) && Dropped(rows) == 0 && row.plain.Some? && forall i :: 0 <= i < |rows| ==> rows[i].key != row.key
    ensures p <= |Blobs(rows)| == |rows|
    ensures Blobs(Put(rows, row)) == Blobs(rows)[..p] + [row.plain.value] + Blobs(rows)[p..]
    ensures p == |rows| <==> Above(rows, row.key)
    ensures p == 0 <==> Under(rows, row.key)
    ensures forall x :: x in Blobs(rows) ==> x in Blobs(Put(rows, row))
  {
    p := Landing(rows, row.key);
    PutLands(rows, row);
    PutBlobs(rows, row, p);
    LandingEnds(rows, row.key);
    var b := Blobs(rows);
    assert b == b[..p] + b[p..];
  }

  datatype Fault = NoFault | EncodeFault | StoreFault

  const SEQ_SPACE: nat := 0x1_0000_0000

  class AuditLog {
    const w: Wire
    var rows: seq<Row>
    var seqno: nat
    var failures: nat

    constructor (w: Wire)
      ensures this.w == w && rows == [] && seqno == 0 && failures == 0
    {
      this.w := w;
      rows, seqno, failures := [], 0, 0;
    }

    /** A new process finds the rows and starts its counters again. */
    method Restart()
      modifies this`seqno, this`failures
      ensures seqno == 0 && failures == 0
    {
      seqno, failures := 0, 0;
    }

    method PutRow(row: Row)
      requires InKeyOrder(rows)
      modifies this`rows
      ensures rows == Put(old(rows), row)
    {
      var k := 0;
      while k < |rows| && rows[k].key != row.key && !KeyLess(row.key, rows[k].key)
        invariant k <= |rows| && rows == old(rows)
        invariant rows[..k] + Put(rows[k..], row) == Put(rows, row)
      {
        PutSkips(rows, k, row);
        k := k + 1;
      }
      PutStops(rows, k, row);
      if k < |rows| && rows[k].key == row.key {
        rows := rows[..k] + [row] + rows[k + 1..];
      } else {
        rows := rows[..k] + [row] + rows[k..];
      }
    }

    /** Only a stored row changes the log; a sequence number is used up once encoding has worked. */
    method Append(event: Event, fault: Fault) returns (ok: bool)
      requires InKeyOrder(rows) && seqno < SEQ_SPACE
      modifies this
      ensures ok == fault.NoFault?
      ensures rows == if ok then Put(old(rows), NewRow(w, old(rows), RowKey(event.timestamp, old(seqno)), event)) else old(rows)
      ensures seqno == if fault.EncodeFault? then old(seqno) else (old(seqno) + 1) % SEQ_SPACE
      ensures failures == old(failures) + if ok then 0 else 1
    {
      var prev: Option<Hash> := None;
      if rows != [] && rows[|rows| - 1].plain.Some? {
        prev := Some(w.hash(rows[|rows| - 1].plain.value));
      }
      if fault.EncodeFault? {
        failures := failures + 1;
        return false;
      }
      var key := RowKey(event.timestamp, seqno);
      seqno := (seqno + 1) % SEQ_SPACE;
      if fault.StoreFault? {
        failures := failures + 1;
        return false;
      }
      PutRow(Row(key, Some(w.encode(event.(prevHash := prev)))));
      return true;
    }

    /** A row that does not decrypt makes the verdict indeterminate, never broken. */
    method VerifyChain() returns (status: ChainStatus)
      ensures if Dropped(rows) > 0 then status == Indeterminate(Dropped(rows)) else Reports(w, Blobs(rows), status)
    {
      var blobs, dropped := [], 0;
      for i := 0 to |rows|
        invariant blobs == Blobs(rows[..i]) && dropped == Dropped(rows[..i])
      {
        BlobsOfConcat(rows[..i], [rows[i]]);
        assert rows[..i + 1] == rows[..i] + [rows[i]];
        if rows[i].plain.Some? {
          blobs := blobs + [rows[i].plain.value];
        } else {
          dropped := dropped + 1;
        }
      }
      assert rows[..|rows|] == rows;
      if dropped > 0 { return Indeterminate(dropped); }
      status := VerifyChainBlobs(w, blobs);
    }
  }
}
