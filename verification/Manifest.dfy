// The arithmetic an operator's manifest is checked with before a model is served, and what a manifest
// that passes is worth to the scheduler.
module Manifests {
  import opened Engines
  import opened Tables
  import Backends
  import Decoding
  import Options
  import Slots

  datatype Drafting = Off | Lookup | Mtp

  // max_draft is an int; the other numbers are 32-bit unsigned.
  datatype Speculation = Speculation(kind: Drafting, maxDraft: int)

  datatype Model = Model(name: string, streams: nat, batch: nat, context: nat, admit: nat, unified: bool,
                         spec: Speculation)

  datatype Problem =
    | NoModels
    | Unnamed(at: nat)
    | Duplicate(at: nat)
    | NoContext(at: nat)
    | DraftsOverrun(at: nat, need: int)
    | HerdOverruns(at: nat)
    | TooThin(at: nat)
    | NoReservation(at: nat)
    | PoolShort(at: nat)
    | OverAdmitted(at: nat)

  const DEFAULT_BATCH: nat := 2048
  const DEFAULT_DRAFT: nat := 4
  const THIN: nat := 256

  ghost predicate Uint32(m: Model) {
    m.streams < UINT32 && m.batch < UINT32 && m.context < UINT32 && m.admit < UINT32
  }

  // The product as the check computes it, in 32 bits.
  function Need(m: Model): int {
    (m.streams * ((m.spec.maxDraft + 1) % UINT32)) % UINT32
  }

  // What each report says of the manifest.
  ghost predicate Holds(models: seq<Model>, p: Problem) {
    if p.NoModels? then models == []
    else
      p.at < |models| &&
      var m := models[p.at];
      match p
      case NoModels => false
      case Unnamed(_) => m.name == ""
      case Duplicate(i) => m.name != "" && exists j :: 0 <= j < i && models[j].name == m.name
      case NoContext(_) => m.context == 0
      case DraftsOverrun(_, need) => m.spec.maxDraft > 0 && m.streams > 0 && m.batch > 0 && need == Need(m) > m.batch
      case HerdOverruns(_) => 0 < m.batch < m.streams
      case TooThin(_) => m.streams > 0 && m.context > 0 && m.context / m.streams < THIN
      case NoReservation(_) => m.unified && m.streams > 1 && m.context > 0 && m.admit == 0
      case PoolShort(_) => m.unified && m.streams > 1 && m.context > 0 && m.admit * m.streams > m.context
      case OverAdmitted(_) => m.admit > 0 && m.streams > 0 && m.context > 0 && m.admit * m.streams > m.context
  }

  lemma AdmitWithin(m: Model)
    requires m.streams > 0
    ensures m.admit > m.context / m.streams <==> m.admit * m.streams > m.context
  {
    ShareOf(m.streams, m.admit, m.context);
  }

  lemma ShareOf(n: nat, each: nat, whole: nat)
    requires n > 0
    ensures n * each <= whole <==> each <= whole / n
  {
    var share, rest := whole / n, whole % n;
    assert whole == share * n + rest;
    if each > share {
      assert n * each >= n * (share + 1) == share * n + n;
    } else {
      assert n * each <= n * share;
    }
  }

  // The problems of one entry.
  method Examine(models: seq<Model>, i: nat, seen: bool) returns (problems: seq<Problem>)
    requires i < |models| && (seen <==> exists j :: 0 <= j < i && models[j].name == models[i].name)
    ensures forall p :: p in problems <==> !p.NoModels? && p.at == i && Holds(models, p)
  {
    var m := models[i];
    problems := [];
    if m.name == "" {
      problems := problems + [Unnamed(i)];
    } else if seen {
      problems := problems + [Duplicate(i)];
    }
    if m.context == 0 {
      problems := problems + [NoContext(i)];
    }
    if m.spec.maxDraft > 0 && m.streams > 0 && m.batch > 0 {
      var need := Need(m);
      if need > m.batch {
        problems := problems + [DraftsOverrun(i, need)];
      }
    }
    if m.streams > 0 && m.batch > 0 && m.batch < m.streams {
      problems := problems + [HerdOverruns(i)];
    }
    var more := ExamineContext(models, i);
    problems := problems + more;
  }

  method ExamineContext(models: seq<Model>, i: nat) returns (problems: seq<Problem>)
    requires i < |models|
    ensures forall p :: p in problems <==>
                        (p.TooThin? || p.NoReservation? || p.PoolShort? || p.OverAdmitted?)
                        && p.at == i && Holds(models, p)
  {
    var m := models[i];
    problems := [];
    if m.streams > 0 && m.context > 0 && m.context / m.streams < THIN {
      problems := problems + [TooThin(i)];
    }
    if m.unified && m.streams > 1 && m.context > 0 {
      if m.admit == 0 {
        problems := problems + [NoReservation(i)];
      } else if m.admit * m.streams > m.context {
        problems := problems + [PoolShort(i)];
      }
    }
    if m.admit > 0 && m.streams > 0 && m.context > 0 {
      AdmitWithin(m);
      if m.admit > m.context / m.streams {
        problems := problems + [OverAdmitted(i)];
      }
    }
  }

  // Every problem there is, and no other.
  method Validate(models: seq<Model>) returns (problems: seq<Problem>)
    ensures forall p :: p in problems <==> Holds(models, p)
  {
    problems := if |models| == 0 then [NoModels] else [];
    var seen: set<string> := {};
    for i := 0 to |models|
      invariant forall n :: n in seen <==> exists j :: 0 <= j < i && models[j].name == n
      invariant forall p :: p in problems <==> Holds(models, p) && (p.NoModels? || p.at < i)
    {
      var found := Examine(models, i, models[i].name in seen);
      problems := problems + found;
      seen := seen + {models[i].name};
    }
  }

  ghost predicate Passed(models: seq<Model>) {
    forall p {:trigger Holds(models, p)} :: !Holds(models, p)
  }

  // An entry with nothing wrong in itself. The product of the drafts is the one 32 bits hold.
  ghost predicate Sound(m: Model) {
    && m.name != "" && m.context > 0 && !(0 < m.batch < m.streams)
    && (m.streams > 0 && m.batch > 0 && m.spec.maxDraft > 0 ==>
          m.streams * ((m.spec.maxDraft + 1) % 0x1_0000_0000) % 0x1_0000_0000 <= m.batch)
    && (m.streams > 0 ==> 256 * m.streams <= m.context && m.admit * m.streams <= m.context)
    && (m.unified && m.streams > 1 ==> m.admit > 0)
  }

  ghost predicate NamedApart(models: seq<Model>) {
    forall i, j :: 0 <= i < j < |models| ==> models[i].name != models[j].name
  }

  // Nothing is reported of an entry but that its name was taken.
  ghost predicate Faultless(models: seq<Model>, i: nat) {
    forall p: Problem {:trigger Holds(models, p)} :: !p.NoModels? && !p.Duplicate? && p.at == i ==> !Holds(models, p)
  }

  lemma SoundWhen(models: seq<Model>, i: nat)
    requires i < |models|
    ensures Sound(models[i]) <==> Faultless(models, i)
  {
    var m := models[i];
    if m.streams > 0 {
      ShareOf(m.streams, THIN, m.context);
    }
    if Faultless(models, i) {
      NothingHolds(models, i);
    }
  }

  lemma NothingHolds(models: seq<Model>, i: nat)
    requires i < |models| && Faultless(models, i)
    ensures Sound(models[i])
  {
    var m := models[i];
    assert !Holds(models, Unnamed(i)) && !Holds(models, NoContext(i)) && !Holds(models, HerdOverruns(i));
    assert !Holds(models, DraftsOverrun(i, Need(m)));
    assert !Holds(models, NoReservation(i)) && !Holds(models, OverAdmitted(i)) && !Holds(models, TooThin(i));
    if m.streams > 0 {
      ShareOf(m.streams, THIN, m.context);
    }
  }

  // A manifest passes when it has entries, no two of a name, and each of them is sound.
  lemma PassedWhen(models: seq<Model>)
    ensures Passed(models) <==>
            models != [] && NamedApart(models) && forall i :: 0 <= i < |models| ==> Sound(models[i])
  {
    forall i: nat | i < |models| ensures Sound(models[i]) <==> Faultless(models, i) {
      SoundWhen(models, i);
    }
    if Passed(models) {
      assert !Holds(models, NoModels);
      forall i, j | 0 <= i < j < |models| ensures models[i].name != models[j].name {
        assert !Holds(models, Duplicate(j)) && !Holds(models, Unnamed(j));
      }
    }
  }

  // ----- what acceptance is worth -----

  // Checked first, defaulted after.
  function Defaulted(m: Model): Model {
    m.(streams := if m.streams == 0 then 1 else m.streams, batch := if m.batch == 0 then DEFAULT_BATCH else m.batch)
  }

  // How many tokens the drafter that is configured proposes at once.
  function Drafts(m: Model): nat {
    if m.spec.kind.Off? then 0 else if m.spec.maxDraft < 1 then DEFAULT_DRAFT else m.spec.maxDraft
  }

  predicate HasRoom(m: Model) {
    m.streams * (Drafts(m) + 1) <= m.batch
  }

  // The check looks at numbers the operator wrote, and a drafter's only when it is written too.
  predicate Written(m: Model) {
    m.streams > 0 && m.batch > 0 && (!m.spec.kind.Off? ==> m.spec.maxDraft > 0)
  }

  // When a herd drafting at once has room: where the check looked, when the product fits 32 bits; where a
  // number was left to its default, when the default happens to suit the others.
  predicate RoomWhen(m: Model) {
    if Written(m) then m.streams * (Drafts(m) + 1) < UINT32
    else if m.streams == 0 then Drafts(m) + 1 <= Defaulted(m).batch
    else if m.batch == 0 then m.streams * (Drafts(m) + 1) <= DEFAULT_BATCH
    else m.streams * (DEFAULT_DRAFT + 1) <= m.batch
  }

  lemma Wrapped(a: nat, b: nat, cap: nat)
    requires a > 0 && cap < UINT32 && (a * (b % UINT32)) % UINT32 <= cap
    ensures a * b <= cap <==> a * b < UINT32
  {
    if a * b < UINT32 {
      assert b <= a * b by { Least(a, b); }
      assert b % UINT32 == b;
    }
  }

  lemma Least(a: nat, b: nat)
    requires a > 0
    ensures b <= a * b
  {
    assert a * b == (a - 1) * b + b;
  }

  // A herd drafting at once has room in the batch exactly then.
  lemma PassedHasRoom(models: seq<Model>, i: nat)
    requires Passed(models) && i < |models| && Uint32(models[i])
    ensures HasRoom(Defaulted(models[i])) <==> RoomWhen(models[i])
  {
    var m := models[i];
    assert !Holds(models, HerdOverruns(i));
    if Written(m) && !m.spec.kind.Off? {
      assert !Holds(models, DraftsOverrun(i, Need(m)));
      Wrapped(m.streams, m.spec.maxDraft + 1, m.batch);
    }
  }

  // Passed although the drafts cannot fit: the product wraps, or a number was left to its default.
  lemma PassedWithoutRoom(wraps: Model, noBatch: Model, noDraft: Model)
    requires wraps == Model("a", 0x10000, 0x10000, 0x1000000, 0, false, Speculation(Lookup, 0xFFFF))
    requires noBatch == Model("a", 1024, 0, 0x1000000, 0, false, Speculation(Lookup, 7))
    requires noDraft == Model("a", 64, 64, 0x1000000, 0, false, Speculation(Lookup, 0))
    ensures Passed([wraps]) && !HasRoom(Defaulted(wraps)) && Written(wraps)
    ensures Passed([noBatch]) && !HasRoom(Defaulted(noBatch)) && !Written(noBatch)
    ensures Passed([noDraft]) && !HasRoom(Defaulted(noDraft)) && !Written(noDraft)
  {}

  // Every stream may fill what it is admitted to: the sum never exceeds the pool.
  lemma PassedIsReserved(models: seq<Model>, i: nat)
    requires Passed(models) && i < |models| && models[i].streams > 0 && models[i].admit > 0
    ensures models[i].streams * models[i].admit <= models[i].context
            && models[i].admit <= models[i].context / models[i].streams
  {
    var m := models[i];
    assert !Holds(models, NoContext(i));
    assert !Holds(models, OverAdmitted(i));
    AdmitWithin(m);
  }

  // The scheduler a manifest entry is served by: its context is one pool, or one share for each stream.
  ghost predicate Serves(e: Engine, m: Model) {
    && e.be.nSeqMax == m.streams && e.be.batchCap == m.batch && e.be.nCtx == m.context
    && e.be.nCtxSeq == (if m.unified || m.streams == 0 then m.context else m.context / m.streams)
    && e.admitCtx == m.admit && e.maxDraft == Drafts(m) && e.honest
  }

  // An entry that passed gives the scheduler the room it needs to feed every stream each tick exactly then.
  lemma ServedAmply(models: seq<Model>, i: nat, e: Engine)
    requires Passed(models) && i < |models| && Uint32(models[i]) && Serves(e, Defaulted(models[i]))
    ensures e.Ample() <==> RoomWhen(models[i])
  {
    PassedHasRoom(models, i);
    assert e.DraftBound() == Drafts(models[i]);
  }

  // The tokens one stream may be promised.
  function Promised(m: Model): nat
    requires m.streams > 0
  {
    if m.admit > 0 then m.admit else m.context / m.streams
  }

  // The promises and one step's drafts, for every stream at once.
  predicate Covered(m: Model)
    requires m.streams > 0
  {
    m.streams * (Promised(m) + Drafts(m) - 1) <= m.context
  }

  // The context one sequence owns: all of a unified pool, or its share.
  function Owned(m: Model): nat
    requires m.streams > 0
  {
    if m.unified then m.context else m.context / m.streams
  }

  // Reserved streams never overfill the pool of an entry that passed exactly when a stream is promised too
  // little to draft in, or the promises and one step's drafts fit together.
  lemma PassedNeverOverfills(models: seq<Model>, i: nat)
    requires Passed(models) && i < |models| && models[i].streams > 0
    ensures var m := models[i];
            NeverOverfills(m.streams, Drafts(m), Promised(m), m.context, Owned(m)) <==> Promised(m) <= 2 || Covered(m)
    ensures Drafts(models[i]) == 0 ==> Covered(models[i])
  {
    var m := models[i];
    NeverOverfillsWhen(m.streams, Drafts(m), Promised(m), m.context, Owned(m));
    PeakFits(models, i);
  }

  lemma PromiseFits(models: seq<Model>, i: nat)
    requires Passed(models) && i < |models| && models[i].streams > 0
    ensures 0 < Promised(models[i]) <= models[i].context / models[i].streams <= Owned(models[i])
    ensures THIN <= models[i].context / models[i].streams
    ensures models[i].unified && models[i].streams > 1 ==> models[i].admit > 0
  {
    var m := models[i];
    assert !Holds(models, NoContext(i));
    assert !Holds(models, TooThin(i));
    assert !Holds(models, NoReservation(i));
    WithinWhole(m.streams, m.context);
    if m.admit > 0 {
      PassedIsReserved(models, i);
    }
  }

  // The peak of every stream fits exactly then.
  lemma PeakFits(models: seq<Model>, i: nat)
    requires Passed(models) && i < |models| && models[i].streams > 0
    ensures var m := models[i]; var peak := Peak(Promised(m), Drafts(m));
                                m.streams * peak <= m.context && peak <= Owned(m) <==> Promised(m) <= 2 || Covered(m)
    ensures Drafts(models[i]) == 0 ==> Covered(models[i])
  {
    var m := models[i];
    PromiseFits(models, i);
    WithinWhole(m.streams, m.context);
    ShareOf(m.streams, Promised(m) + Drafts(m) - 1, m.context);
    ShareOf(m.streams, Peak(Promised(m), Drafts(m)), m.context);
    ShareFitsPool(m.streams, Promised(m), m.context);
  }

  // The scheduler serving such an entry has the pool under which it never evicts exactly then.
  lemma ServedWithoutEviction(models: seq<Model>, i: nat, e: Engine)
    requires Passed(models) && i < |models| && models[i].streams > 0 && Serves(e, models[i])
    ensures e.Provisioned() <==> Promised(models[i]) <= 2 || Covered(models[i])
    ensures e.Provisioned() <==>
            NeverOverfills(e.be.nSeqMax, e.DraftBound(), e.Window(), e.be.nCtx, e.be.nCtxSeq)
    ensures Drafts(models[i]) == 0 ==> e.Provisioned()
  {
    PromiseFits(models, i);
    PeakFits(models, i);
    PassedNeverOverfills(models, i);
    WindowIsPromise(models, i, e);
    assert e.DraftBound() == Drafts(models[i]);
  }

  lemma WindowIsPromise(models: seq<Model>, i: nat, e: Engine)
    requires Passed(models) && i < |models| && models[i].streams > 0 && Serves(e, models[i])
    ensures e.Window() == Promised(models[i])
  {
    PromiseFits(models, i);
    if models[i].streams == 1 {
      assert models[i].context / 1 == models[i].context;
    }
  }

  lemma WithinWhole(n: nat, whole: nat)
    requires n > 0
    ensures whole / n <= whole
  {
    ShareOf(n, whole / n, whole);
    Least(n, whole / n);
  }

  lemma ShareFitsPool(n: nat, each: nat, whole: nat)
    requires n > 0 && 0 < each <= whole / n
    ensures n * (each - 1) <= whole
  {
    ShareOf(n, each, whole);
    assert n * (each - 1) <= n * each;
  }

  // Passed, and four streams of 1024 in a pool of 4096, each one token from its end and with seven drafts
  // staged, overfill it.
  lemma PassedYetShort(m: Model)
    returns (table: map<nat, Slots.Slot>, lm: Decoding.Model, plain: Decoding.Decoder,
             tips: seq<seq<Decoding.Token>>, chains: seq<Decoding.Chain>,
             ckpt: seq<Options.Option<seq<Decoding.Token>>>, rows: seq<Backends.Row>)
    requires m == Model("a", 4, 2048, 4096, 1024, true, Speculation(Lookup, 7))
    ensures Passed([m]) && HasRoom(m) && !Covered(m)
    ensures |table.Keys| == 4 && Reserving(table, 4, lm, plain, 7, false, tips, chains, ckpt, rows, 1024)
    ensures forall q :: q in table ==>
                          table[q].hasLogits && table[q].generated == table[q].req.maxTokens - 1
                          && |table[q].draft| == 7
    ensures Backends.Overfull(tips, 4096, 4096)
  {
    ShortPasses(m);
    table, lm, plain, tips, chains, ckpt, rows := AllAtPeak(4, 7, 1024, 4096, 4096);
    assert |PeakDraft(1024, 7)| == 7;
  }

  lemma ShortPasses(m: Model)
    requires m == Model("a", 4, 2048, 4096, 1024, true, Speculation(Lookup, 7))
    ensures Passed([m]) && HasRoom(m) && !Covered(m)
  {}
}
