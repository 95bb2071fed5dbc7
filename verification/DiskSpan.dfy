/**
 A disk as a store of sectors, and what it means to write or read a span of consecutive sectors that
 may cross any number of track boundaries.
 */
module DiskSpan {
  import opened CTypes

  const TRACK_SIZE := 16
  const SECTOR_SIZE := 512

  /** Sectors by track and number; those never written read as blank. */
  type Store = map<(int, int), seq<byte>>

  function Blank(): seq<byte> {
    seq(SECTOR_SIZE, _ => 0)
  }

  function At(st: Store, track: int, sector: int): seq<byte> {
    if (track, sector) in st then st[(track, sector)] else Blank()
  }

  ghost predicate Full(st: Store) {
    forall p :: p in st ==> |st[p]| == SECTOR_SIZE
  }

  /** The track and the sector of the k-th sector of a span that begins at sector `first` of `track`. */
  function Place(track: int, first: nat, k: nat): (p: (int, int))
    ensures 0 <= p.1 < TRACK_SIZE && p.0 * TRACK_SIZE + p.1 == track * TRACK_SIZE + first + k
  {
    (track + (first + k) / TRACK_SIZE, (first + k) % TRACK_SIZE)
  }

  /** Writes the sectors of `data` one after the other. */
  function WriteSpan(st: Store, track: int, first: nat, data: seq<seq<byte>>): Store {
    if data == [] then st else
    var k := |data| - 1;
    WriteSpan(st, track, first, data[..k])[Place(track, first, k) := data[k]]
  }

  function ReadSpan(st: Store, track: int, first: nat, n: nat): (data: seq<seq<byte>>)
    ensures |data| == n
  {
    seq(n, k requires 0 <= k < n => At(st, Place(track, first, k).0, Place(track, first, k).1))
  }

  /** The place of a sector within a span, counted linearly; outside the span it is not in 0..n. */
  function Index(track: int, first: nat, t: int, s: int): int {
    (t - track) * TRACK_SIZE + s - first
  }

  lemma PlaceIndex(track: int, first: nat, t: int, s: int, k: nat)
    requires 0 <= s < TRACK_SIZE
    ensures Place(track, first, k) == (t, s) <==> Index(track, first, t, s) == k
  {
  }

  /**
   Writing a span gives each sector of the span its own data and changes nothing else in the whole
   store, be it on other tracks or under numbers that no track has.
   */
  lemma {:induction false} WriteSpanAt(st: Store, track: int, first: nat, data: seq<seq<byte>>, t: int, s: int)
    ensures var k := Index(track, first, t, s);
            At(WriteSpan(st, track, first, data), t, s)
            == if 0 <= s < TRACK_SIZE && 0 <= k < |data| then data[k] else At(st, t, s)
    decreases |data|
  {
    if data != [] {
      var k := |data| - 1;
      WriteSpanAt(st, track, first, data[..k], t, s);
      if 0 <= s < TRACK_SIZE {
        PlaceIndex(track, first, t, s, k);
      }
    }
  }

  /** Reading a span back gives the data written to it, however many tracks it crosses. */
  lemma RoundTrip(st: Store, track: int, first: nat, data: seq<seq<byte>>)
    ensures ReadSpan(WriteSpan(st, track, first, data), track, first, |data|) == data
  {
    var back := ReadSpan(WriteSpan(st, track, first, data), track, first, |data|);
    forall k | 0 <= k < |data| ensures back[k] == data[k] {
      var p := Place(track, first, k);
      PlaceIndex(track, first, p.0, p.1, k);
      WriteSpanAt(st, track, first, data, p.0, p.1);
    }
  }

  /** A span that shares no sector with a written one reads as it did before. */
  lemma DisjointSpan(st: Store, track: int, first: nat, data: seq<seq<byte>>, track': int, first': nat, n: nat)
    requires track' * TRACK_SIZE + first' + n <= track * TRACK_SIZE + first
          || track * TRACK_SIZE + first + |data| <= track' * TRACK_SIZE + first'
    ensures ReadSpan(WriteSpan(st, track, first, data), track', first', n) == ReadSpan(st, track', first', n)
  {
    forall k | 0 <= k < n
      ensures ReadSpan(WriteSpan(st, track, first, data), track', first', n)[k] == ReadSpan(st, track', first', n)[k]
    {
      var p := Place(track', first', k);
      WriteSpanAt(st, track, first, data, p.0, p.1);
    }
  }

  lemma SamePlace(track: int, first: nat, j: nat, track': int, first': nat, k: nat)
    requires track' * TRACK_SIZE + first' == track * TRACK_SIZE + first + j
    ensures Place(track', first', k) == Place(track, first, j + k)
  {
  }

  /** Writing a span piece by piece is writing the whole. */
  lemma {:induction false} WriteSpanConcat(st: Store, track: int, first: nat, a: seq<seq<byte>>,
                                           track': int, first': nat, b: seq<seq<byte>>)
    requires track' * TRACK_SIZE + first' == track * TRACK_SIZE + first + |a|
    ensures WriteSpan(WriteSpan(st, track, first, a), track', first', b) == WriteSpan(st, track, first, a + b)
    decreases |b|
  {
    if b == [] {
      assert a + b == a;
    } else {
      var k := |b| - 1;
      WriteSpanConcat(st, track, first, a, track', first', b[..k]);
      SamePlace(track, first, |a|, track', first', k);
      assert (a + b)[..|a| + k] == a + b[..k];
    }
  }

  lemma ReadSpanConcat(st: Store, track: int, first: nat, n: nat, track': int, first': nat, m: nat)
    requires track' * TRACK_SIZE + first' == track * TRACK_SIZE + first + n
    ensures ReadSpan(st, track, first, n) + ReadSpan(st, track', first', m) == ReadSpan(st, track, first, n + m)
  {
    forall k | 0 <= k < m ensures Place(track', first', k) == Place(track, first, n + k) {
      SamePlace(track, first, n, track', first', k);
    }
  }

  // ---------------------------------------------------------------------------------------------
  // What is asked of the device

  datatype Access = Access(track: int, sector: int, offset: nat)

  /** The transfers of a span: its linear sectors in order, the k-th at byte offset 512 * k. */
  function Transfers(track: int, first: nat, n: nat, offset: nat): (a: seq<Access>)
    ensures |a| == n
  {
    seq(n, k requires 0 <= k < n =>
      Access(Place(track, first, k).0, Place(track, first, k).1, offset + SECTOR_SIZE * k))
  }

  lemma TransfersConcat(track: int, first: nat, n: nat, offset: nat, track': int, first': nat, m: nat)
    requires track' * TRACK_SIZE + first' == track * TRACK_SIZE + first + n
    ensures Transfers(track, first, n, offset) + Transfers(track', first', m, offset + SECTOR_SIZE * n)
            == Transfers(track, first, n + m, offset)
  {
    forall k | 0 <= k < m ensures Place(track', first', k) == Place(track, first, n + k) {
      SamePlace(track, first, n, track', first', k);
    }
  }

  /** How many tracks the driver seeks: a span that begins at sector 16 costs an idle first pass. */
  function Passes(first: nat, n: nat): nat {
    if n == 0 then 0 else (first + n - 1) / TRACK_SIZE + 1
  }

  function Seeks(track: int, first: nat, n: nat): (s: seq<int>)
    ensures |s| == Passes(first, n)
  {
    seq(Passes(first, n), i => track + i)
  }

  // ---------------------------------------------------------------------------------------------
  // Which requests are accepted

  /** The validation in disk_read_or_write_real, for a unit with `tracks` tracks, in C arithmetic. */
  predicate Accepts(unit: int, track: int, first: int, sectors: int, hasBuffer: bool, tracks: int) {
    !(unit < 0 || unit > 1 || track < 0 || track > tracks || first < 0 || first > TRACK_SIZE || !hasBuffer ||
      Wrap(CDiv(Wrap(first + sectors), TRACK_SIZE) + track) > tracks)
  }

  /** The sectors a request has to move; a request for less than none is for none. */
  function Todo(sectors: int): nat {
    if sectors > 0 then sectors else 0
  }

  /** A request that asks for a sector seeks at most a given track just if its last sector lies there or before. */
  lemma LastSeek(track: int, first: nat, sectors: int, limit: int)
    ensures (forall t :: t in Seeks(track, first, Todo(sectors)) ==> t <= limit) <==>
            sectors <= 0 || first + sectors <= (limit + 1 - track) * TRACK_SIZE
  {
    if sectors > 0 {
      var seeks := Seeks(track, first, sectors);
      var last := track + (first + sectors - 1) / TRACK_SIZE;
      assert seeks[|seeks| - 1] == last && last in seeks;
      assert forall t :: t in seeks ==> t <= last;
      assert last <= limit <==> first + sectors <= (limit + 1 - track) * TRACK_SIZE;
    }
  }

  /**
   An accepted request stays on the disk exactly when it asks for no sector at all or its last sector
   lies on the disk.  If the sums of the validation are C ints, it seeks at most track `tracks`, which
   is one past the end.
   */
  lemma SeeksOfAccepted(unit: int, track: int, first: int, sectors: int, tracks: int)
    requires IsInt(sectors) && IsInt(tracks) && Accepts(unit, track, first, sectors, true, tracks)
    ensures var seeks := Seeks(track, first, Todo(sectors));
            && (forall t :: t in seeks ==> 0 <= t)
            && ((forall t :: t in seeks ==> t < tracks) <==>
                  sectors <= 0 || first + sectors <= (tracks - track) * TRACK_SIZE)
            && (IsInt(first + sectors) && IsInt(CDiv(first + sectors, TRACK_SIZE) + track) ==>
                  forall t :: t in seeks ==> t <= tracks)
  {
    var seeks := Seeks(track, first, Todo(sectors));
    LastSeek(track, first, sectors, tracks - 1);
    assert (forall t :: t in seeks ==> t < tracks) <==> (forall t :: t in seeks ==> t <= tracks - 1);
    LastSeek(track, first, sectors, tracks);
  }

  /**
   An accepted request seeks beyond track `tracks` exactly when its last sector lies beyond that track, which
   on a disk of fewer than 2^27 - 1 tracks it does exactly when the sum of the validation wraps around.
   */
  lemma FarOffExactlyWhen(unit: int, track: int, first: int, sectors: int, tracks: int)
    requires IsInt(sectors) && Accepts(unit, track, first, sectors, true, tracks)
    ensures var near := forall t :: t in Seeks(track, first, Todo(sectors)) ==> t <= tracks;
            && (near <==> sectors <= 0 || first + sectors <= (tracks + 1 - track) * TRACK_SIZE)
            && (tracks < 0x7ff_ffff ==> (near <==> sectors <= 0 || first + sectors <= INT_MAX))
  {
    LastSeek(track, first, sectors, tracks);
  }

  /** No unit but 0 and 1, no place off the disk or track, and no request without a buffer is ever accepted ... */
  lemma RefusesOthers(unit: int, track: int, first: int, sectors: int, hasBuffer: bool, tracks: int)
    requires unit !in {0, 1} || !hasBuffer || !(0 <= track <= tracks) || !(0 <= first <= TRACK_SIZE)
    ensures !Accepts(unit, track, first, sectors, hasBuffer, tracks)
  {
  }

  /**
   ... and any other is, if the sums are C ints, exactly when the sector behind its last one lies on track
   `tracks` or before, or it asks for less than none.
   */
  lemma AcceptsExactlyWhen(unit: int, track: int, first: int, sectors: int, tracks: int)
    requires unit in {0, 1} && 0 <= track <= tracks && 0 <= first <= TRACK_SIZE
    requires IsInt(first + sectors) && IsInt(CDiv(first + sectors, TRACK_SIZE) + track)
    ensures Accepts(unit, track, first, sectors, true, tracks) <==>
            sectors < 0 || Place(track, first, sectors).0 <= tracks
  {
  }

  /** Every request on the disk is accepted. */
  lemma AcceptsOnDisk(unit: int, track: int, first: int, sectors: int, tracks: int)
    requires unit in {0, 1} && 0 <= track && 0 <= first <= TRACK_SIZE && 0 < sectors
    requires IsInt(sectors) && IsInt(tracks)
    requires forall t :: t in Seeks(track, first, sectors) ==> t < tracks
    ensures Accepts(unit, track, first, sectors, true, tracks)
  {
    LastSeek(track, first, sectors, tracks - 1);
    assert forall t :: t in Seeks(track, first, Todo(sectors)) ==> t <= tracks - 1;
    assert Seeks(track, first, sectors)[0] == track;
  }

  /** The validation does let through requests that run off the disk, on every disk ... */
  lemma AcceptsOffDisk(tracks: nat)
    requires IsInt(tracks)
    ensures Accepts(0, tracks, 0, 1, true, tracks)
    ensures tracks in Seeks(tracks, 0, 1)
  {
    assert Seeks(tracks, 0, 1)[0] == tracks;
  }

  /** ... and far off it, when the sum wraps. */
  lemma AcceptsFarOffDisk(tracks: nat)
    requires IsInt(tracks)
    ensures Accepts(0, 0, 1, INT_MAX, true, tracks)
    ensures 0x7ff_ffff in Seeks(0, 1, INT_MAX)
  {
    assert Passes(1, INT_MAX) == 0x800_0000;
    assert Seeks(0, 1, INT_MAX)[0x7ff_ffff] == 0x7ff_ffff;
  }
}
