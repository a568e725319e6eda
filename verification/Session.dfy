/** Login sessions: the hand-written record format and the keyed store with a time to live. */
module Session {
  import opened Strings

  const QUOTE := "\""

  // ---------------------------------------------------------------- the record format

  function Encode(userID: string, email: string): string {
    "{\"user_id\":\"" + userID + "\",\"email\":\"" + email + "\"}"
  }

  /** `StoreError` is any error of the store but a missing key; `IndexOutOfRange` is the run-time panic
      of the unguarded parts[7]. */
  datatype Reply = Found(userID: string, email: string) | InvalidCredentials | StoreError | IndexOutOfRange

  function Decode(data: string): Reply {
    var parts := Split(data, QUOTE);
    if |parts| < 6 then InvalidCredentials
    else if |parts| < 8 then IndexOutOfRange
    else Found(parts[3], parts[7])
  }

  /** A text up to its first quote. */
  function BeforeQuote(s: string): string {
    var i := IndexFrom(s, QUOTE, 0);
    if i < 0 then s else s[..i]
  }

  lemma {:induction false} BeforeQuoteIsWhole(s: string)
    ensures BeforeQuote(s) == s <==> !Contains(s, QUOTE)
    ensures Split(s, QUOTE)[0] == BeforeQuote(s)
    ensures |Split(s, QUOTE)| == 1 <==> !Contains(s, QUOTE)
  {
    if IndexFrom(s, QUOTE, 0) >= 0 {
      assert OccursAt(s, QUOTE, IndexFrom(s, QUOTE, 0));
    }
  }

  lemma {:induction false} QuoteJoin(a: string, b: string)
    ensures Split(a + QUOTE + b, QUOTE) == Split(a, QUOTE) + Split(b, QUOTE)
  {
    SplitConcat(a, QUOTE, b);
  }

  lemma QuoteIn(s: string, i: int)
    requires OccursAt(s, QUOTE, i)
    ensures '\"' in s
  {
    assert s[i..i + 1][0] == s[i];
  }

  lemma {:induction false} NoQuote(s: string)
    requires '\"' !in s
    ensures Split(s, QUOTE) == [s]
  {
    forall i ensures !OccursAt(s, QUOTE, i) {
      if OccursAt(s, QUOTE, i) {
        QuoteIn(s, i);
      }
    }
    SplitClean(s, QUOTE);
  }

  lemma {:induction false} SplitsIntoPieces(pieces: seq<string>)
    requires pieces != [] && forall i :: 0 <= i < |pieces| ==> '\"' !in pieces[i]
    ensures Split(Join(pieces, QUOTE), QUOTE) == pieces
  {
    NoQuote(pieces[0]);
    if |pieces| > 1 {
      QuoteJoin(pieces[0], Join(pieces[1..], QUOTE));
      SplitsIntoPieces(pieces[1..]);
      assert pieces == [pieces[0]] + pieces[1..];
    }
  }

  /** Whatever the data, the user id is read between its third and fourth quote and the email between
      its seventh and eighth. */
  lemma {:induction false} FieldsBetweenQuotes(pieces: seq<string>)
    requires |pieces| >= 8 && forall i :: 0 <= i < |pieces| ==> '\"' !in pieces[i]
    ensures Decode(Join(pieces, QUOTE)) == Found(pieces[3], pieces[7])
  {
    hide Split, Join;
    SplitsIntoPieces(pieces);
  }

  /** The email half of a record, from the comma on. */
  lemma {:induction false} TailParts(email: string)
    ensures Split(",\"email\":\"" + email + "\"}", QUOTE) == [",", "email", ":"] + Split(email, QUOTE) + ["}"]
  {
    hide Split;
    NoQuote(",");
    NoQuote("email");
    NoQuote(":");
    NoQuote("}");
    QuoteJoin(email, "}");
    QuoteJoin(":", email + QUOTE + "}");
    QuoteJoin("email", ":" + QUOTE + (email + QUOTE + "}"));
    QuoteJoin(",", "email" + QUOTE + (":" + QUOTE + (email + QUOTE + "}")));
    assert ",\"email\":\"" + email + "\"}" == "," + QUOTE + ("email" + QUOTE + (":" + QUOTE + (email + QUOTE + "}")));
  }

  lemma EncodeShape(userID: string, email: string)
    ensures Encode(userID, email)
            == "{" + QUOTE + ("user_id" + QUOTE + (":" + QUOTE + (userID + QUOTE + (",\"email\":\"" + email + "\"}"))))
  {
    assert "{\"user_id\":\"" == "{" + QUOTE + "user_id" + QUOTE + ":" + QUOTE;
    assert "\",\"email\":\"" == QUOTE + ",\"email\":\"";
  }

  /** The pieces of a record between its quotes. */
  lemma {:induction false} RecordParts(userID: string, email: string)
    ensures Split(Encode(userID, email), QUOTE)
            == ["{", "user_id", ":"] + Split(userID, QUOTE) + [",", "email", ":"] + Split(email, QUOTE) + ["}"]
  {
    hide Split, Encode;
    EncodeShape(userID, email);
    var tail := ",\"email\":\"" + email + "\"}";
    NoQuote("{");
    NoQuote("user_id");
    NoQuote(":");
    TailParts(email);
    QuoteJoin(userID, tail);
    QuoteJoin(":", userID + QUOTE + tail);
    QuoteJoin("user_id", ":" + QUOTE + (userID + QUOTE + tail));
    QuoteJoin("{", "user_id" + QUOTE + (":" + QUOTE + (userID + QUOTE + tail)));
  }

  /** A written record is always read back without a panic; the user id comes back up to its first
      quote, and if it has none the email comes back up to its own first quote. */
  lemma ReadBack(userID: string, email: string)
    ensures Decode(Encode(userID, email)).Found?
    ensures Decode(Encode(userID, email)).userID == BeforeQuote(userID)
    ensures !Contains(userID, QUOTE) ==> Decode(Encode(userID, email)).email == BeforeQuote(email)
  {
    hide Split, Encode, BeforeQuote;
    RecordParts(userID, email);
    BeforeQuoteIsWhole(userID);
    BeforeQuoteIsWhole(email);
  }

  /** The record round-trips if and only if neither field contains a quote. */
  lemma RoundTripIff(userID: string, email: string)
    ensures Decode(Encode(userID, email)) == Found(userID, email) <==>
            !Contains(userID, QUOTE) && !Contains(email, QUOTE)
  {
    hide Encode, Decode, BeforeQuote;
    ReadBack(userID, email);
    BeforeQuoteIsWhole(userID);
    BeforeQuoteIsWhole(email);
  }

  function Quotes(s: string): nat {
    if s == [] then 0 else (if s[0] == '\"' then 1 else 0) + Quotes(s[1..])
  }

  lemma {:induction false} QuotesConcat(a: string, b: string)
    ensures Quotes(a + b) == Quotes(a) + Quotes(b)
  {
    if a == [] {
      assert a + b == b;
    } else {
      assert (a + b)[1..] == a[1..] + b;
      QuotesConcat(a[1..], b);
    }
  }

  lemma {:induction false} NoQuotesToCount(s: string)
    requires '\"' !in s
    ensures Quotes(s) == 0
  {
    if s != [] {
      NoQuotesToCount(s[1..]);
    }
  }

  lemma NoQuoteMeansNone(s: string, n: nat)
    requires n <= |s| && forall j :: 0 <= j < n ==> !OccursAt(s, QUOTE, j)
    ensures '\"' !in s[..n]
  {
    forall j | 0 <= j < n ensures s[j] != '\"' {
      assert s[j..j + 1] == [s[j]];
      assert !OccursAt(s, QUOTE, j);
    }
  }

  lemma {:induction false} PartsAreQuotesPlusOne(s: string)
    ensures |Split(s, QUOTE)| == Quotes(s) + 1
    decreases |s|
  {
    hide OccursAt, IndexFrom;
    var i := IndexFrom(s, QUOTE, 0);
    if i < 0 {
      NoQuoteMeansNone(s, |s|);
      assert s[..|s|] == s;
      NoQuotesToCount(s);
    } else {
      QuoteAt(s, i);
      NoQuoteMeansNone(s, i);
      NoQuotesToCount(s[..i]);
      PartsAreQuotesPlusOne(s[i + 1..]);
      assert s == s[..i] + s[i..] && s[i..][1..] == s[i + 1..];
      QuotesConcat(s[..i], s[i..]);
    }
  }

  lemma QuoteAt(s: string, i: nat)
    requires OccursAt(s, QUOTE, i)
    ensures i < |s| && s[i] == '\"'
  {
    assert s[i..i + 1][0] == s[i];
  }

  /** The guard lets exactly the data with five or six quotes through to an index out of range; what
      CreateSession writes always has more. Data with fewer is refused, and with more it is read. */
  lemma {:induction false} PanicIff(data: string)
    ensures Decode(data).IndexOutOfRange? <==> Quotes(data) == 5 || Quotes(data) == 6
    ensures Decode(data).InvalidCredentials? <==> Quotes(data) <= 4
    ensures Decode(data).Found? <==> Quotes(data) >= 7
  {
    hide Quotes, Split;
    PartsAreQuotesPlusOne(data);
  }

  // ---------------------------------------------------------------- the store

  const SESSION_TTL: nat := 24 * 3600

  datatype Entry = Entry(data: string, expires: nat)

  /** The keyed store and its clock, in seconds. */
  datatype Store = Store(entries: map<string, Entry>, now: nat)

  function SessionKey(id: string): string {
    "session:" + id
  }

  lemma SessionKeyInjective(a: string, b: string)
    requires SessionKey(a) == SessionKey(b)
    ensures a == b
  {
    assert SessionKey(a)[|"session:"|..] == a && SessionKey(b)[|"session:"|..] == b;
  }

  /** A key can be read until its time to live has passed. */
  function Read(s: Store, id: string): Reply {
    var key := SessionKey(id);
    if key in s.entries && s.now < s.entries[key].expires then Decode(s.entries[key].data) else InvalidCredentials
  }

  /** Store operations; one that fails changes nothing. */
  datatype Op =
    | Create(id: string, userID: string, email: string, ok: bool)
    | Destroy(id: string, ok: bool)
    | Get(id: string)
    | Tick(seconds: nat)

  function Step(s: Store, op: Op): Store {
    match op
    case Create(id, userID, email, ok) =>
      if ok then s.(entries := s.entries[SessionKey(id) := Entry(Encode(userID, email), s.now + SESSION_TTL)]) else s
    case Destroy(id, ok) => if ok then s.(entries := s.entries - {SessionKey(id)}) else s
    case Get(_) => s
    case Tick(seconds) => s.(now := s.now + seconds)
  }

  function After(ops: seq<Op>): Store {
    if ops == [] then Store(map[], 0) else Step(After(ops[..|ops| - 1]), ops[|ops| - 1])
  }

  class SessionManager {
    var entries: map<string, Entry>
    var now: nat

    constructor ()
      ensures State() == After([])
    {
      entries, now := map[], 0;
    }

    function State(): Store
      reads this
    {
      Store(entries, now)
    }

    /** `newID` is the fresh id drawn for the session; the id is returned only if the store took it. */
    method CreateSession(newID: string, userID: string, email: string, storeOk: bool)
      returns (sessionID: string, ok: bool)
      modifies this`entries
      ensures State() == Step(old(State()), Create(newID, userID, email, storeOk))
      ensures ok == storeOk && sessionID == if ok then newID else ""
      ensures storeOk ==>
                var data := "{\"user_id\":\"" + userID + "\",\"email\":\"" + email + "\"}";
                entries == old(entries)["session:" + newID := Entry(data, now + 24 * 3600)]
      ensures !storeOk ==> entries == old(entries)
    {
      var key := SessionKey(newID);
      var data := Encode(userID, email);
      if !storeOk {
        return "", false;
      }
      entries := entries[key := Entry(data, now + SESSION_TTL)];
      return newID, true;
    }

    method GetSession(sessionID: string, storeOk: bool) returns (reply: Reply)
      ensures reply == if storeOk then Read(State(), sessionID) else StoreError
    {
      var key := SessionKey(sessionID);
      if !storeOk {
        return StoreError;
      }
      if key !in entries || now >= entries[key].expires {
        return InvalidCredentials;
      }
      var parts := Split(entries[key].data, QUOTE);
      if |parts| < 6 {
        return InvalidCredentials;
      }
      if |parts| <= 7 {
        return IndexOutOfRange;
      }
      return Found(parts[3], parts[7]);
    }

    method DestroySession(sessionID: string, storeOk: bool) returns (ok: bool)
      modifies this`entries
      ensures State() == Step(old(State()), Destroy(sessionID, storeOk))
      ensures ok == storeOk && entries == if storeOk then old(entries) - {"session:" + sessionID} else old(entries)
    {
      if storeOk {
        entries := entries - {SessionKey(sessionID)};
      }
      return storeOk;
    }
  }

  // ---------------------------------------------------------------- lifetime of a session

  predicate Touches(op: Op, id: string) {
    match op
    case Create(id', _, _, ok) => ok && id' == id
    case Destroy(id', ok) => ok && id' == id
    case _ => false
  }

  function Elapsed(ops: seq<Op>): nat {
    if ops == [] then 0
    else Elapsed(ops[..|ops| - 1]) + if ops[|ops| - 1].Tick? then ops[|ops| - 1].seconds else 0
  }

  /** The session `id` was last created by the i-th operation, not destroyed since, and less than the
      time to live has passed. */
  ghost predicate LiveSince(ops: seq<Op>, id: string, i: nat) {
    && i < |ops| && ops[i].Create? && ops[i].ok && ops[i].id == id
    && (forall j :: i < j < |ops| ==> !Touches(ops[j], id))
    && Elapsed(ops[i + 1..]) < 24 * 3600
  }

  ghost predicate LastTouch(ops: seq<Op>, id: string, i: int) {
    && -1 <= i < |ops|
    && (i >= 0 ==> Touches(ops[i], id))
    && forall j :: i < j < |ops| ==> !Touches(ops[j], id)
  }

  /** The entry the last operation on a session leaves in the store. */
  ghost predicate EntryIs(ops: seq<Op>, id: string, i: int) {
    var s := After(ops);
    if i >= 0 && i < |ops| && ops[i].Create? then
      && SessionKey(id) in s.entries
      && s.entries[SessionKey(id)] == Entry(Encode(ops[i].userID, ops[i].email), Elapsed(ops[..i]) + SESSION_TTL)
    else SessionKey(id) !in s.entries
  }

  lemma UntouchedEntry(s: Store, op: Op, id: string)
    requires !Touches(op, id)
    ensures SessionKey(id) in Step(s, op).entries <==> SessionKey(id) in s.entries
    ensures SessionKey(id) in s.entries ==> Step(s, op).entries[SessionKey(id)] == s.entries[SessionKey(id)]
  {
    hide SessionKey, Encode;
    if (op.Create? || op.Destroy?) && SessionKey(op.id) == SessionKey(id) {
      SessionKeyInjective(op.id, id);
    }
  }

  lemma {:induction false} ClockIsElapsed(ops: seq<Op>)
    ensures After(ops).now == Elapsed(ops)
  {
    if ops != [] {
      ClockIsElapsed(ops[..|ops| - 1]);
    }
  }

  lemma {:induction false} StoreFollowsLastTouch(ops: seq<Op>, id: string) returns (i: int)
    ensures LastTouch(ops, id, i) && EntryIs(ops, id, i)
  {
    hide SessionKey, Encode;
    if ops == [] {
      i := -1;
    } else {
      var n := |ops| - 1;
      if Touches(ops[n], id) {
        i := n;
        ClockIsElapsed(ops[..n]);
      } else {
        i := StoreFollowsLastTouch(ops[..n], id);
        UntouchedEntry(After(ops[..n]), ops[n], id);
        assert i >= 0 ==> ops[..n][..i] == ops[..i];
      }
    }
  }

  lemma {:induction false} ElapsedConcat(a: seq<Op>, b: seq<Op>)
    ensures Elapsed(a + b) == Elapsed(a) + Elapsed(b)
  {
    if b == [] {
      assert a + b == a;
    } else {
      assert (a + b)[..|a + b| - 1] == a + b[..|b| - 1];
      ElapsedConcat(a, b[..|b| - 1]);
    }
  }

  lemma {:induction false} ElapsedAround(ops: seq<Op>, i: nat)
    requires i < |ops| && ops[i].Create?
    ensures Elapsed(ops) == Elapsed(ops[..i]) + Elapsed(ops[i + 1..])
  {
    assert ops == ops[..i] + ([ops[i]] + ops[i + 1..]);
    ElapsedConcat(ops[..i], [ops[i]] + ops[i + 1..]);
    ElapsedConcat([ops[i]], ops[i + 1..]);
    assert [ops[i]][..0] == [];
  }

  lemma LastTouchUnique(ops: seq<Op>, id: string, i: int, j: int)
    requires LastTouch(ops, id, i) && LastTouch(ops, id, j)
    ensures i == j
  {
  }

  lemma LiveIsLastTouch(ops: seq<Op>, id: string, i: nat)
    requires LiveSince(ops, id, i)
    ensures LastTouch(ops, id, i)
  {
    hide Elapsed;
  }

  /** What can be read once the entry is known. */
  lemma {:induction false} ReadEntry(ops: seq<Op>, id: string, i: int)
    requires LastTouch(ops, id, i) && EntryIs(ops, id, i)
    ensures i >= 0 && LiveSince(ops, id, i) ==> Read(After(ops), id) == Decode(Encode(ops[i].userID, ops[i].email))
    ensures (i >= 0 ==> !LiveSince(ops, id, i)) ==> Read(After(ops), id) == InvalidCredentials
  {
    hide SessionKey, Encode, Decode, Elapsed, After;
    ClockIsElapsed(ops);
    if i >= 0 && ops[i].Create? {
      ElapsedAround(ops, i);
    }
  }

  /** Over any run: a session reads as what its creation wrote exactly while it is live, and as invalid
      otherwise. Reads in between change nothing. */
  lemma {:induction false} SessionLifetime(ops: seq<Op>, id: string)
    ensures forall i: nat :: LiveSince(ops, id, i) ==>
              Read(After(ops), id) == Decode(Encode(ops[i].userID, ops[i].email))
    ensures (forall i: nat :: !LiveSince(ops, id, i)) ==> Read(After(ops), id) == InvalidCredentials
  {
    hide Touches, Elapsed, Read, After, Decode, Encode, EntryIs, LastTouch;
    var last := StoreFollowsLastTouch(ops, id);
    ReadEntry(ops, id, last);
    forall i: nat | LiveSince(ops, id, i)
      ensures Read(After(ops), id) == Decode(Encode(ops[i].userID, ops[i].email))
    {
      LiveIsLastTouch(ops, id, i);
      LastTouchUnique(ops, id, i, last);
    }
  }

  /** A session reads as user u if and only if its live creation was for a user id that is u up to its
      first quote; for ids without quotes, exactly the user it was created for. */
  lemma {:induction false} SessionUser(ops: seq<Op>, id: string, u: string)
    ensures Read(After(ops), id).Found? && Read(After(ops), id).userID == u <==>
            exists i: nat :: LiveSince(ops, id, i) && BeforeQuote(ops[i].userID) == u
  {
    hide Touches, Elapsed, Read, After, Decode, Encode, BeforeQuote;
    SessionLifetime(ops, id);
    forall i: nat | LiveSince(ops, id, i)
      ensures Read(After(ops), id).Found? && Read(After(ops), id).userID == BeforeQuote(ops[i].userID)
    {
      ReadBack(ops[i].userID, ops[i].email);
    }
  }

  /** No run of the store leads to the panic: it takes data that was not written here. */
  lemma {:induction false} NeverPanics(ops: seq<Op>, id: string)
    ensures !Read(After(ops), id).IndexOutOfRange?
  {
    hide Read, After, Decode, Encode, LiveSince;
    SessionLifetime(ops, id);
    if i: nat :| LiveSince(ops, id, i) {
      LiveIsCreate(ops, id, i);
      ReadBack(ops[i].userID, ops[i].email);
    }
  }

  lemma LiveIsCreate(ops: seq<Op>, id: string, i: nat)
    requires LiveSince(ops, id, i)
    ensures i < |ops| && ops[i].Create?
  {
  }
}
