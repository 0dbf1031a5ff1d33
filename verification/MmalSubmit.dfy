/** Packing a decode unit into buffers for the MMAL decoder (src/video/mmal.c).

    Picture entries that follow each other share a buffer; every other entry has its own. */
module MmalSubmit {

  import opened CTypes

  datatype Kind = PicData | Sps | OtherParameterSet

  datatype Entry = Entry(kind: Kind, data: seq<Byte>)

  datatype Buffer = Buffer(data: seq<Byte>, config: bool, frameStart: bool, frameEnd: bool)

  datatype Status = Ok | NeedIdr

  /** What the library answers: whether the n-th request yields a buffer and the n-th send
      succeeds, how large buffers are, and what the SPS fix-up writes for an entry. */
  datatype Library = Library(hasBuffer: nat -> bool, accepts: nat -> bool, allocSize: nat,
                             fixSps: seq<Byte> -> seq<Byte>)

  type Unit = seq<Entry>

  predicate IsPic(e: Entry) { e.kind.PicData? }

  // ---------------------------------------------------------------------------------------
  // What is to be sent

  /** A buffer ends before entry p: only neighbouring picture entries share one. */
  predicate Cut(es: Unit, p: nat)
    requires p <= |es|
  {
    p == 0 || p == |es| || !IsPic(es[p - 1]) || !IsPic(es[p])
  }

  /** The end of the buffer that entry i goes into. */
  function GroupEnd(es: Unit, i: nat): (j: nat)
    requires i < |es|
    ensures i < j <= |es| && Cut(es, j)
    ensures forall p :: i < p < j ==> !Cut(es, p)
    decreases |es| - i
  {
    if Cut(es, i + 1) then i + 1 else GroupEnd(es, i + 1)
  }

  /** The bytes an entry contributes. */
  function Payload(e: Entry, lib: Library): seq<Byte>
  {
    if e.kind.Sps? then lib.fixSps(e.data) else e.data
  }

  /** The bytes of entries i up to j. */
  function Bytes(es: Unit, i: nat, j: nat, lib: Library): seq<Byte>
    requires i <= j <= |es|
    decreases j
  {
    if i == j then [] else Bytes(es, i, j - 1, lib) + Payload(es[j - 1], lib)
  }

  ghost predicate NoPicBefore(es: Unit, i: nat)
    requires i <= |es|
  {
    forall k :: 0 <= k < i ==> !IsPic(es[k])
  }

  /** The buffer for entries i up to j: parameter sets are configuration, the first picture
      buffer starts the frame. */
  ghost function BufferFor(es: Unit, i: nat, j: nat, lib: Library): Buffer
    requires i < j <= |es|
  {
    Buffer(Bytes(es, i, j, lib), !IsPic(es[i]), IsPic(es[i]) && NoPicBefore(es, i), true)
  }

  /** All the buffers from entry i on. */
  ghost function Buffers(es: Unit, i: nat, lib: Library): seq<Buffer>
    requires i <= |es|
    decreases |es| - i
  {
    if i == |es| then []
    else [BufferFor(es, i, GroupEnd(es, i), lib)] + Buffers(es, GroupEnd(es, i), lib)
  }

  /** The k-th group goes through: a buffer is there, it is large enough (the SPS fix-up does not
      check), and the decoder accepts it. */
  ghost predicate GoesThrough(es: Unit, i: nat, j: nat, k: nat, lib: Library)
    requires i < j <= |es|
  {
    lib.hasBuffer(k) && (es[i].kind.Sps? || |Bytes(es, i, j, lib)| <= lib.allocSize) && lib.accepts(k)
  }

  datatype Outcome = Outcome(status: Status, sent: seq<Buffer>)

  /** Groups are sent in order up to the first that does not go through. */
  ghost function Expected(es: Unit, i: nat, k: nat, lib: Library): Outcome
    requires i <= |es|
    decreases |es| - i
  {
    if i == |es| then Outcome(Ok, [])
    else
      var j := GroupEnd(es, i);
      if !GoesThrough(es, i, j, k, lib) then Outcome(NeedIdr, [])
      else
        var rest := Expected(es, j, k + 1, lib);
        Outcome(rest.status, [BufferFor(es, i, j, lib)] + rest.sent)
  }

  // ---------------------------------------------------------------------------------------
  // What that means

  /** A unit that goes through is sent whole; otherwise what was sent is a proper beginning. */
  lemma {:induction false} SentIsBeginning(es: Unit, i: nat, k: nat, lib: Library)
    requires i <= |es|
    ensures var o := Expected(es, i, k, lib);
            && o.sent <= Buffers(es, i, lib)
            && (o.status.Ok? <==> o.sent == Buffers(es, i, lib))
    decreases |es| - i
  {
    if i < |es| {
      SentIsBeginning(es, GroupEnd(es, i), k + 1, lib);
    }
  }

  function Data(bs: seq<Buffer>): seq<Byte>
  {
    if bs == [] then [] else bs[0].data + Data(bs[1..])
  }

  lemma {:induction false} BytesConcat(es: Unit, i: nat, j: nat, k: nat, lib: Library)
    requires i <= j <= k <= |es|
    ensures Bytes(es, i, k, lib) == Bytes(es, i, j, lib) + Bytes(es, j, k, lib)
    decreases k
  {
    if j < k {
      BytesConcat(es, i, j, k - 1, lib);
    }
  }

  /** The payloads are the entries' bytes in order, nothing dropped or repeated. */
  lemma {:induction false} PayloadsInOrder(es: Unit, i: nat, lib: Library)
    requires i <= |es|
    ensures Data(Buffers(es, i, lib)) == Bytes(es, i, |es|, lib)
    decreases |es| - i
  {
    if i < |es| {
      var j := GroupEnd(es, i);
      PayloadsInOrder(es, j, lib);
      BytesConcat(es, i, j, |es|, lib);
    }
  }

  /** A group is one parameter set, or a run of picture entries that cannot be extended. */
  lemma GroupShape(es: Unit, i: nat)
    requires i < |es|
    ensures !IsPic(es[i]) ==> GroupEnd(es, i) == i + 1
    ensures IsPic(es[i]) ==> forall p :: i <= p < GroupEnd(es, i) ==> IsPic(es[p])
    ensures IsPic(es[i]) && GroupEnd(es, i) < |es| ==> !IsPic(es[GroupEnd(es, i)])
  {
    var j := GroupEnd(es, i);
    if IsPic(es[i]) {
      forall p | i <= p < j ensures IsPic(es[p]) {
        if i < p { assert !Cut(es, p); }
      }
    } else {
      assert Cut(es, i + 1);
    }
  }

  /** Where the k-th group from entry i on starts. */
  function GroupStart(es: Unit, i: nat, k: nat): (s: nat)
    requires i <= |es|
    ensures s <= |es|
    decreases k
  {
    if k == 0 || i == |es| then i else GroupStart(es, GroupEnd(es, i), k - 1)
  }

  /** Buffer k is that of the k-th group: configuration exactly when the group starts with a
      parameter set, and always marked as an end. */
  lemma {:induction false} BufferIsGroup(es: Unit, i: nat, lib: Library, k: nat)
    requires i <= |es| && k < |Buffers(es, i, lib)|
    ensures var b, s := Buffers(es, i, lib)[k], GroupStart(es, i, k);
            && s < |es| && b == BufferFor(es, s, GroupEnd(es, s), lib)
            && b.config == !IsPic(es[s]) && b.frameEnd
    decreases k
  {
    if k > 0 { BufferIsGroup(es, GroupEnd(es, i), lib, k - 1); }
  }

  /** The next group starts where one ends. */
  lemma {:induction false} GroupStartNext(es: Unit, i: nat, k: nat)
    requires i <= |es| && GroupStart(es, i, k) < |es|
    ensures GroupStart(es, i, k + 1) == GroupEnd(es, GroupStart(es, i, k))
    decreases k
  {
    if k > 0 { GroupStartNext(es, GroupEnd(es, i), k - 1); }
  }

  /** CONFIG is on exactly the buffers whose group starts with a parameter set, every buffer is
      marked as an end, and no two picture buffers follow each other. */
  lemma RunsAreMaximal(es: Unit, i: nat, lib: Library)
    requires i <= |es|
    ensures var bs := Buffers(es, i, lib);
            && (forall k :: 0 <= k < |bs| ==> GroupStart(es, i, k) < |es|)
            && (forall k :: 0 <= k < |bs| ==> bs[k].config == !IsPic(es[GroupStart(es, i, k)]))
            && (forall k :: 0 <= k < |bs| ==> bs[k].frameEnd)
            && (forall k :: 0 <= k < |bs| - 1 ==> bs[k].config || bs[k + 1].config)
  {
    var bs := Buffers(es, i, lib);
    forall k | 0 <= k < |bs|
      ensures GroupStart(es, i, k) < |es| && bs[k].frameEnd
      ensures bs[k].config == !IsPic(es[GroupStart(es, i, k)])
    {
      BufferIsGroup(es, i, lib, k);
    }
    forall k | 0 <= k < |bs| - 1 ensures bs[k].config || bs[k + 1].config {
      GroupStartNext(es, i, k);
      GroupShape(es, GroupStart(es, i, k));
    }
  }

  ghost predicate OnlyConfigBefore(bs: seq<Buffer>, k: nat)
    requires k <= |bs|
  {
    forall m :: 0 <= m < k ==> bs[m].config
  }

  /** Exactly the first picture buffer starts the frame. */
  lemma {:induction false} FirstPictureStarts(es: Unit, i: nat, lib: Library, k: nat)
    requires i <= |es| && k < |Buffers(es, i, lib)|
    ensures var bs := Buffers(es, i, lib);
            bs[k].frameStart <==> !bs[k].config && NoPicBefore(es, i) && OnlyConfigBefore(bs, k)
    decreases |es| - i
  {
    var bs, j := Buffers(es, i, lib), GroupEnd(es, i);
    var rest := Buffers(es, j, lib);
    if k > 0 {
      FirstPictureStarts(es, j, lib, k - 1);
      GroupShape(es, i);
      assert bs[0].config ==> j == i + 1;
      assert NoPicBefore(es, j) <==> NoPicBefore(es, i) && bs[0].config;
      assert OnlyConfigBefore(bs, k) <==> bs[0].config && OnlyConfigBefore(rest, k - 1) by {
        assert forall m :: 0 < m < k ==> bs[m] == rest[m - 1];
        assert forall m :: 0 <= m < k - 1 ==> rest[m] == bs[m + 1];
      }
    }
  }

  // ---------------------------------------------------------------------------------------
  // What the decoder gets, by the entries alone

  /** The data of entries i up to j, one after the other. */
  function Joined(es: Unit, i: nat, j: nat): seq<Byte>
    requires i <= j <= |es|
    decreases j
  {
    if i == j then [] else Joined(es, i, j - 1) + es[j - 1].data
  }

  lemma {:induction false} BytesOfPictures(es: Unit, i: nat, j: nat, lib: Library)
    requires i <= j <= |es| && forall p :: i <= p < j ==> IsPic(es[p])
    ensures Bytes(es, i, j, lib) == Joined(es, i, j)
    decreases j
  {
    if i < j { BytesOfPictures(es, i, j - 1, lib); }
  }

  /** Buffer k as it is to be sent, and, if the unit gets there, as it is sent: an SPS as the fix-up
      writes it, another parameter set as it is, and pictures joined in order. */
  lemma SentData(es: Unit, lib: Library, k: nat)
    requires k < |Buffers(es, 0, lib)|
    ensures GroupStart(es, 0, k) < |es|
    ensures var data, s := Buffers(es, 0, lib)[k].data, GroupStart(es, 0, k);
            match es[s].kind
            case Sps => data == lib.fixSps(es[s].data)
            case OtherParameterSet => data == es[s].data
            case PicData => data == Joined(es, s, GroupEnd(es, s))
    ensures var sent := Expected(es, 0, 0, lib).sent;
            k < |sent| ==> sent[k] == Buffers(es, 0, lib)[k]
  {
    SentIsBeginning(es, 0, 0, lib);
    BufferIsGroup(es, 0, lib, k);
    var s := GroupStart(es, 0, k);
    GroupShape(es, s);
    if IsPic(es[s]) {
      BytesOfPictures(es, s, GroupEnd(es, s), lib);
    } else {
      assert Bytes(es, s, s, lib) == [];
    }
  }

  /** The library has a buffer for group k, which starts at entry s and takes `size` bytes, and
      accepts it; an SPS is not measured. */
  ghost predicate Passes(es: Unit, lib: Library, k: nat, s: nat, size: nat)
    requires s < |es|
  {
    lib.hasBuffer(k) && lib.accepts(k) && (es[s].kind.Sps? || size <= lib.allocSize)
  }

  lemma {:induction false} SentPasses(es: Unit, i: nat, k: nat, lib: Library, m: nat)
    requires i <= |es| && m < |Expected(es, i, k, lib).sent|
    ensures m < |Buffers(es, i, lib)| && GroupStart(es, i, m) < |es|
    ensures Passes(es, lib, k + m, GroupStart(es, i, m), |Buffers(es, i, lib)[m].data|)
    decreases m
  {
    if m > 0 { SentPasses(es, GroupEnd(es, i), k + 1, lib, m - 1); }
  }

  lemma {:induction false} StopsAtFailure(es: Unit, i: nat, k: nat, lib: Library)
    requires i <= |es|
    ensures var o, bs := Expected(es, i, k, lib), Buffers(es, i, lib);
            && (o.status.Ok? ==> |o.sent| == |bs|)
            && (o.status.NeedIdr? ==>
                  var n := |o.sent|;
                  n < |bs| && GroupStart(es, i, n) < |es| &&
                  !Passes(es, lib, k + n, GroupStart(es, i, n), |bs[n].data|))
    decreases |es| - i
  {
    if i < |es| { StopsAtFailure(es, GroupEnd(es, i), k + 1, lib); }
  }

  /** A unit goes through exactly when the library takes every one of its buffers; if not, what was
      sent ends before the first one it does not take. */
  lemma GoesThroughIff(es: Unit, lib: Library)
    ensures var o, bs := Expected(es, 0, 0, lib), Buffers(es, 0, lib);
            && (forall m :: 0 <= m < |bs| ==> GroupStart(es, 0, m) < |es|)
            && (o.status.Ok? <==> forall m :: 0 <= m < |bs| ==> Passes(es, lib, m, GroupStart(es, 0, m), |bs[m].data|))
            && (o.status.NeedIdr? ==>
                  && |o.sent| < |bs| && !Passes(es, lib, |o.sent|, GroupStart(es, 0, |o.sent|), |bs[|o.sent|].data|)
                  && forall m :: 0 <= m < |o.sent| ==> Passes(es, lib, m, GroupStart(es, 0, m), |bs[m].data|))
  {
    StopsAtFailure(es, 0, 0, lib);
    var o, bs := Expected(es, 0, 0, lib), Buffers(es, 0, lib);
    forall m | 0 <= m < |bs| ensures GroupStart(es, 0, m) < |es| { BufferIsGroup(es, 0, lib, m); }
    forall m | 0 <= m < |o.sent| ensures Passes(es, lib, m, GroupStart(es, 0, m), |bs[m].data|) {
      SentPasses(es, 0, 0, lib, m);
    }
  }

  // ---------------------------------------------------------------------------------------
  // The submit loop

  const FRESH := Buffer([], false, false, false)

  /** A buffer that takes in one more entry: flags, then data. */
  function Take(buf: Buffer, e: Entry, firstEntry: bool, lib: Library): Buffer
  {
    Buffer(buf.data + Payload(e, lib), buf.config || !IsPic(e),
           buf.frameStart || (IsPic(e) && !firstEntry), buf.frameEnd)
  }

  /** Where the loop stands: `buf` holds entries s up to i of the group that starts at s. */
  ghost predicate Packing(es: Unit, lib: Library, s: nat, i: nat, k: nat, buf: Buffer, firstEntry: bool)
  {
    && s <= i <= |es|
    && firstEntry == !NoPicBefore(es, i)
    && (s < i ==>
          && i < |es| && (forall p :: s < p <= i ==> !Cut(es, p)) && lib.hasBuffer(k)
          && buf == Buffer(Bytes(es, s, i, lib), false, NoPicBefore(es, s), false))
    && (s == i ==> buf == FRESH)
  }

  lemma BytesGrow(es: Unit, i: nat, j: nat, k: nat, lib: Library)
    requires i <= j <= k <= |es|
    ensures |Bytes(es, i, j, lib)| <= |Bytes(es, i, k, lib)|
  {
    BytesConcat(es, i, j, k, lib);
  }

  lemma EndOfGroup(es: Unit, s: nat, j: nat)
    requires s < j <= |es| && Cut(es, j) && forall p :: s < p < j ==> !Cut(es, p)
    ensures GroupEnd(es, s) == j
  {
    var e := GroupEnd(es, s);
  }

  /** The entries taken in so far are of one group, with one more among them. */
  lemma PackInGroup(es: Unit, lib: Library, s: nat, i: nat, k: nat, buf: Buffer, firstEntry: bool)
    requires Packing(es, lib, s, i, k, buf, firstEntry) && i < |es|
    ensures i + 1 <= GroupEnd(es, s) && (s < i ==> IsPic(es[s]) && IsPic(es[i]))
  {
    if s < i {
      assert !Cut(es, i);
      GroupShape(es, s);
      assert !Cut(es, s + 1);
    }
    var e := GroupEnd(es, s);
    assert i + 1 <= e;
  }

  /** The buffer holds what the group has up to there. */
  lemma TakesInOrder(es: Unit, lib: Library, s: nat, i: nat, k: nat, buf: Buffer, firstEntry: bool)
    requires Packing(es, lib, s, i, k, buf, firstEntry) && i < |es|
    ensures var now := Take(buf, es[i], firstEntry, lib);
            now == Buffer(Bytes(es, s, i + 1, lib), !IsPic(es[s]), IsPic(es[s]) && NoPicBefore(es, s), false)
  {
    PackInGroup(es, lib, s, i, k, buf, firstEntry);
    if s == i { assert Bytes(es, s, s, lib) == []; }
  }

  /** One entry more: the run goes on, or the buffer is the one to send. */
  lemma PackOne(es: Unit, lib: Library, s: nat, i: nat, k: nat, buf: Buffer, firstEntry: bool)
    requires Packing(es, lib, s, i, k, buf, firstEntry) && i < |es|
    ensures var now := Take(buf, es[i], firstEntry, lib);
            && |now.data| <= |Bytes(es, s, GroupEnd(es, s), lib)|
            && (es[i].kind.Sps? <==> es[s].kind.Sps?)
            && (!Cut(es, i + 1) && lib.hasBuffer(k) ==> Packing(es, lib, s, i + 1, k, now, firstEntry || IsPic(es[i])))
            && (Cut(es, i + 1) ==>
                  && GroupEnd(es, s) == i + 1
                  && now.(frameEnd := true) == BufferFor(es, s, i + 1, lib)
                  && Packing(es, lib, i + 1, i + 1, k + 1, FRESH, firstEntry || IsPic(es[i])))
  {
    PackInGroup(es, lib, s, i, k, buf, firstEntry);
    TakesInOrder(es, lib, s, i, k, buf, firstEntry);
    BytesGrow(es, s, i + 1, GroupEnd(es, s), lib);
    if Cut(es, i + 1) {
      EndOfGroup(es, s, i + 1);
    }
  }

  lemma Fails(es: Unit, s: nat, sent: seq<Buffer>, lib: Library)
    requires s < |es| && !GoesThrough(es, s, GroupEnd(es, s), |sent|, lib)
    ensures Extended(sent, Expected(es, s, |sent|, lib)) == Outcome(NeedIdr, sent)
  {
    assert sent + [] == sent;
  }

  lemma Sends(es: Unit, s: nat, sent: seq<Buffer>, lib: Library)
    requires s < |es| && GoesThrough(es, s, GroupEnd(es, s), |sent|, lib)
    ensures var j := GroupEnd(es, s);
            var now := sent + [BufferFor(es, s, j, lib)];
            Extended(sent, Expected(es, s, |sent|, lib)) == Extended(now, Expected(es, j, |now|, lib))
  {
  }

  /** An outcome with buffers sent before it. */
  function Extended(sent: seq<Buffer>, rest: Outcome): Outcome
  {
    Outcome(rest.status, sent + rest.sent)
  }

  ghost predicate Overfull(buf: Buffer, e: Entry, lib: Library)
  {
    !e.kind.Sps? && |e.data| + |buf.data| > lib.allocSize
  }

  /** What the loop keeps: where it stands, and that `all` is still the outcome to come. */
  ghost predicate OnTheWay(
    es: Unit, lib: Library, s: nat, i: nat, sent: seq<Buffer>, buf: Buffer, firstEntry: bool, all: Outcome)
  {
    Packing(es, lib, s, i, |sent|, buf, firstEntry) &&
    Extended(sent, Expected(es, s, |sent|, lib)) == all
  }

  /** The round that takes in entry i ends in failure, sends a buffer, or goes on. */
  lemma OneRound(
    es: Unit, lib: Library, s: nat, i: nat, sent: seq<Buffer>, buf: Buffer, firstEntry: bool, all: Outcome)
    requires OnTheWay(es, lib, s, i, sent, buf, firstEntry, all) && i < |es|
    ensures s < i ==> lib.hasBuffer(|sent|)
    ensures s <= i && (s == i ==> buf == FRESH)
    ensures !lib.hasBuffer(|sent|) || Overfull(buf, es[i], lib) || (Cut(es, i + 1) && !lib.accepts(|sent|)) ==>
              all == Outcome(NeedIdr, sent)
    ensures lib.hasBuffer(|sent|) && !Overfull(buf, es[i], lib) ==>
              var now, first := Take(buf, es[i], firstEntry, lib), firstEntry || IsPic(es[i]);
              && (!Cut(es, i + 1) ==> OnTheWay(es, lib, s, i + 1, sent, now, first, all))
              && (Cut(es, i + 1) && lib.accepts(|sent|) ==>
                    OnTheWay(es, lib, i + 1, i + 1, sent + [now.(frameEnd := true)], FRESH, first, all))
  {
    PackOne(es, lib, s, i, |sent|, buf, firstEntry);
    if GoesThrough(es, s, GroupEnd(es, s), |sent|, lib) {
      Sends(es, s, sent, lib);
    } else {
      Fails(es, s, sent, lib);
    }
  }

  /** decoder_renderer_submit_decode_unit, up to handing output buffers back.  `requests` counts
      the semaphore waits: one for each buffer sent, and one more when the unit fails. */
  method Submit(entries: Unit, lib: Library) returns (status: Status, sent: seq<Buffer>, requests: nat)
    ensures Outcome(status, sent) == Expected(entries, 0, 0, lib)
    ensures requests == |sent| + if status.Ok? then 0 else 1
  {
    ghost var s, all := 0, Expected(entries, 0, 0, lib);
    var holding, buf := false, FRESH;
    var firstEntry := false;
    var i := 0;
    sent, requests := [], 0;
    while i < |entries|
      invariant i <= |entries| && (holding <==> s < i)
      invariant OnTheWay(entries, lib, s, i, sent, buf, firstEntry, all)
      invariant requests == |sent| + if holding then 1 else 0
    {
      var entry := entries[i];
      OneRound(entries, lib, s, i, sent, buf, firstEntry, all);
      if !holding {
        requests := requests + 1;
        if lib.hasBuffer(|sent|) {
          buf := FRESH;
        } else {
          return NeedIdr, sent, requests;
        }
      }

      ghost var before, first := buf, firstEntry;
      if !IsPic(entry) {
        buf := buf.(config := true);
      } else if !firstEntry {
        buf := buf.(frameStart := true);
        firstEntry := true;
      }

      if entry.kind.Sps? {
        buf := buf.(data := buf.data + lib.fixSps(entry.data));
      } else {
        if |entry.data| + |buf.data| > lib.allocSize {
          return NeedIdr, sent, requests;
        }
        buf := buf.(data := buf.data + entry.data);
      }
      assert buf == Take(before, entry, first, lib) && firstEntry == (first || IsPic(entry));

      if !IsPic(entry) || i + 1 == |entries| || !IsPic(entries[i + 1]) {
        assert Cut(entries, i + 1);
        buf := buf.(frameEnd := true);
        if !lib.accepts(|sent|) {
          return NeedIdr, sent, requests;
        }
        sent := sent + [buf];
        holding, buf, s := false, FRESH, i + 1;
      } else {
        holding := true;
      }
      i := i + 1;
    }
    status := Ok;
  }
}
