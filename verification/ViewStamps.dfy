/** View stamps and the 64-bit record numbers they are stored under. */
module ViewStamps {
  import opened Bytes

  datatype ViewStamp = ViewStamp(view: u32, req: u32)

  /** -1, 0 or 1: view first, then request. */
  function Compare(a: ViewStamp, b: ViewStamp): (r: int)
  {
    if a.view < b.view then -1
    else if a.view > b.view then 1
    else if a.req > b.req then 1
    else if a.req < b.req then -1
    else 0
  }

  /** The database key of a stamp: both halves masked to 32 bits, the view
      shifted into the upper half of a 64-bit word. */
  function ToLong(vs: ViewStamp): (key: nat)
    ensures key < U64
  {
    (vs.req % U32 + (vs.view % U32) * U32) % U64
  }

  function FromLong(key: nat): (vs: ViewStamp)
  {
    ViewStamp((key / U32) % U32, key % U32)
  }

  lemma LongValue(vs: ViewStamp)
    ensures ToLong(vs) == vs.req + vs.view * U32
  {
    assert vs.req % U32 == vs.req;
    assert vs.view % U32 == vs.view;
    assert vs.req + vs.view * U32 < U64;
  }

  /** `ltovs` undoes `vstol`, and back, on all 64-bit keys. */
  lemma LongRoundTrip(vs: ViewStamp, key: nat)
    requires key < U64
    ensures FromLong(ToLong(vs)) == vs
    ensures ToLong(FromLong(key)) == key
  {
    LongValue(vs);
    assert (vs.req + vs.view * U32) / U32 == vs.view;
    assert (vs.req + vs.view * U32) % U32 == vs.req;
    LongValue(FromLong(key));
    assert key / U32 < U32;
    assert key == (key / U32) * U32 + key % U32;
  }

  lemma LongLess(a: ViewStamp, b: ViewStamp)
    requires Compare(a, b) < 0
    ensures ToLong(a) < ToLong(b)
  {
    LongValue(a);
    LongValue(b);
    if a.view < b.view {
      assert a.view * U32 + U32 <= b.view * U32;
    }
  }

  /** The keys are ordered exactly as the stamps are. */
  lemma LongOrder(a: ViewStamp, b: ViewStamp)
    ensures Compare(a, b) < 0 <==> ToLong(a) < ToLong(b)
    ensures Compare(a, b) > 0 <==> ToLong(a) > ToLong(b)
    ensures Compare(a, b) == 0 <==> a == b
    ensures ToLong(a) == ToLong(b) <==> a == b
  {
    if Compare(a, b) < 0 {
      LongLess(a, b);
    } else if Compare(a, b) > 0 {
      LongLess(b, a);
    } else {
      assert a == b;
    }
  }

  /** Stepping a key by one inside a view steps the request by one, so a loop
      from one key to another of the same view visits every stamp between. */
  lemma LongSuccessor(view: u32, req: u32)
    requires req + 1 < U32
    ensures ToLong(ViewStamp(view, req)) + 1 == ToLong(ViewStamp(view, req + 1))
  {
    LongValue(ViewStamp(view, req));
    LongValue(ViewStamp(view, req + 1));
  }
}
