/** The ledger as its verifiers see it: entries read back from the JSON lines that were written.

    Here the texts of an entry are byte strings, as in Go: every character stands for one byte. */
module LedgerReread {
  import opened CycleDriver
  import opened CycleTypes
  import opened Hashing
  import opened Hex
  import opened Ledger
  import LedgerAppend
  import Utf8
  import opened Wrappers

  // ---- Any way of reading back ---------------------------------------------------------------------

  type Reader = Entry -> Entry

  function ReadBack(reader: Reader, entries: seq<Entry>): seq<Entry>
  {
    seq(|entries|, i requires 0 <= i < |entries| => reader(entries[i]))
  }

  ghost predicate KeepsHashes(reader: Reader, entries: seq<Entry>)
  {
    forall e | e in entries :: reader(e).prevHash == e.prevHash && reader(e).hash == e.hash
  }

  ghost predicate KeepsContent(canon: Canon, reader: Reader, e: Entry)
  {
    Content(canon, reader(e)) == Content(canon, e)
  }

  lemma ReadBackLinked(sha: Sha, canon: Canon, reader: Reader, entries: seq<Entry>, i: nat)
    requires ChainOk(sha, canon, entries) && i < |entries| && KeepsHashes(reader, entries)
    requires CollisionFree(sha, ChainInputs(canon, entries) + ChainInputs(canon, ReadBack(reader, entries)))
    ensures LinkedAt(sha, canon, ReadBack(reader, entries), i) <==> KeepsContent(canon, reader, entries[i])
  {
    var back := ReadBack(reader, entries);
    var e, x := entries[i], reader(entries[i]);
    HashesAreHex(sha, canon, entries, i);
    assert e in entries && x == back[i] && x in back;
    assert i > 0 ==> entries[i - 1] in entries && back[i - 1] == reader(entries[i - 1]);
    assert Predecessor(back, i) == Predecessor(entries, i);
    if LinkedAt(sha, canon, back, i) {
      EncodeInjective(sha(HashInput(canon, x)), sha(HashInput(canon, e)));
      assert NoCollision(sha, HashInput(canon, x), HashInput(canon, e));
      var n := |HashInput(canon, e)| - 64;
      assert Content(canon, x).value == HashInput(canon, x)[..n];
      assert Content(canon, e).value == HashInput(canon, e)[..n];
    }
  }

  /** An intact ledger that is read back verifies exactly when every entry marshals as it did when it was
      written, absent a collision among what was and is hashed. */
  lemma ReadBackVerifiesIff(sha: Sha, canon: Canon, reader: Reader, entries: seq<Entry>)
    requires ChainOk(sha, canon, entries) && KeepsHashes(reader, entries)
    requires CollisionFree(sha, ChainInputs(canon, entries) + ChainInputs(canon, ReadBack(reader, entries)))
    ensures ChainOk(sha, canon, ReadBack(reader, entries))
       <==> forall e | e in entries :: KeepsContent(canon, reader, e)
  {
    forall i | 0 <= i < |entries|
      ensures LinkedAt(sha, canon, ReadBack(reader, entries), i) <==> KeepsContent(canon, reader, entries[i])
    {
      ReadBackLinked(sha, canon, reader, entries, i);
    }
  }

  // ---- An entry as a JSON line ----------------------------------------------------------------------

  predicate ByteText(s: string) { forall i | 0 <= i < |s| :: s[i] as int < 256 }

  predicate ByteTexts(texts: seq<string>) { forall s | s in texts :: ByteText(s) }

  function Raw(s: string): Bytes
  {
    seq(|s|, i requires 0 <= i < |s| => s[i] as int % 256)
  }

  function Text(b: Bytes): (s: string)
    ensures ByteText(s) && Raw(s) == b
  {
    seq(|b|, i requires 0 <= i < |b| => b[i] as char)
  }

  /** Every text is a byte string. No entry the program writes carries a work contract. */
  predicate ByteEntry(e: Entry)
  {
    && ByteText(e.schemaVersion) && ByteText(e.cycleID) && (e.typ.Unknown? ==> ByteText(e.typ.name))
    && ByteText(e.agent) && ByteText(e.handoffTo) && ByteText(e.gate) && ByteText(e.summary)
    && ByteTexts(e.files) && e.workContract.None?
  }

  /** A JSON line is fixed text, quoted strings, and fields that are left out when empty. */
  datatype Piece = Fixed(text: Bytes) | Quoted(value: Bytes) | Field(key: Bytes, value: Bytes)

  function Render(escape: Utf8.Escape, pieces: seq<Piece>): Bytes
  {
    if pieces == [] then [] else RenderPiece(escape, pieces[0]) + Render(escape, pieces[1..])
  }

  function RenderPiece(escape: Utf8.Escape, p: Piece): Bytes
  {
    match p
    case Fixed(text) => text
    case Quoted(value) => InQuotes(escape, value)
    case Field(key, value) => if value == [] then [] else key + InQuotes(escape, value)
  }

  function InQuotes(escape: Utf8.Escape, value: Bytes): Bytes { [34] + Utf8.Written(escape, value) + [34] }

  /** The first name behind the key, the others behind a comma. */
  function ElementPieces(before: string, files: seq<string>): seq<Piece>
    decreases files
  {
    if files == [] then [] else [Fixed(Raw(before)), Quoted(Raw(files[0]))] + ElementPieces(",", files[1..])
  }

  function FilesPieces(files: seq<string>): seq<Piece>
  {
    if files == [] then [] else ElementPieces(",\"files\":[", files) + [Fixed(Raw("]"))]
  }

  function TypePiece(typ: EventType): Piece
  {
    match typ
    case CycleCreated => Fixed(Raw("\"cycle_created\""))
    case AgentTurn => Fixed(Raw("\"agent_turn\""))
    case GatePassed => Fixed(Raw("\"gate_passed\""))
    case GateFailed => Fixed(Raw("\"gate_failed\""))
    case HandoffCreated => Fixed(Raw("\"handoff_created\""))
    case CycleHalted => Fixed(Raw("\"cycle_halted\""))
    case CycleCompleted => Fixed(Raw("\"cycle_completed\""))
    case ValidationGreen => Fixed(Raw("\"validation_green\""))
    case ActionDenied => Fixed(Raw("\"action_denied\""))
    case SecretFlagged => Fixed(Raw("\"secret_flagged\""))
    case GatesPinned => Fixed(Raw("\"gates_pinned\""))
    case GateTampered => Fixed(Raw("\"gate_tampered\""))
    case ToolUseDecision => Fixed(Raw("\"tooluse_decision\""))
    case ClaimRegistered => Fixed(Raw("\"claim_registered\""))
    case ClaimVerified => Fixed(Raw("\"claim_verified\""))
    case ClaimFalsified => Fixed(Raw("\"claim_falsified\""))
    case Unknown(name) => Quoted(Raw(name))
  }

  function Decimal(n: int): Bytes
    decreases if n < 0 then 1 - n else n
  {
    if n < 0 then [45] + Decimal(-n)
    else (if n < 10 then [] else Decimal(n / 10)) + [48 + n % 10]
  }

  /** The fields in their declared order. */
  function Pieces(e: Entry): seq<Piece>
  {
    HeadPieces(e) + FieldPieces(e) + FilesPieces(e.files) + BackPieces(e)
  }

  function HeadPieces(e: Entry): seq<Piece>
  {
    [Fixed(Raw("{\"schema_version\":")), Quoted(Raw(e.schemaVersion)), Fixed(Raw(",\"at\":") + Decimal(e.at)),
     Fixed(Raw(",\"cycle_id\":")), Quoted(Raw(e.cycleID)), Fixed(Raw(",\"type\":")), TypePiece(e.typ)]
  }

  function FieldPieces(e: Entry): seq<Piece>
  {
    [Field(Raw(",\"agent\":"), Raw(e.agent)), Field(Raw(",\"handoff_to\":"), Raw(e.handoffTo)),
     Field(Raw(",\"gate\":"), Raw(e.gate)), Field(Raw(",\"summary\":"), Raw(e.summary))]
  }

  function BackPieces(e: Entry): seq<Piece>
  {
    [Field(Raw(",\"prev_hash\":"), e.prevHash), Field(Raw(",\"hash\":"), e.hash), Fixed(Raw("}"))]
  }

  function JsonCanon(escape: Utf8.Escape): Canon
  {
    (e: Entry) => if ByteEntry(e) then Some(Render(escape, Pieces(e))) else None
  }

  // ---- Reading the line back ------------------------------------------------------------------------

  function Repaired(s: string): (t: string)
    ensures ByteText(s) ==> ByteText(t)
  {
    if ByteText(s) then Text(Utf8.Repair(Raw(s))) else s
  }

  function RepairedAll(texts: seq<string>): (all: seq<string>)
    ensures ByteTexts(texts) ==> ByteTexts(all)
  {
    if texts == [] then [] else [Repaired(texts[0])] + RepairedAll(texts[1..])
  }

  function RepairedType(typ: EventType): EventType
  {
    if typ.Unknown? then Unknown(Repaired(typ.name)) else typ
  }

  /** Every string comes back repaired. */
  function Reread(e: Entry): Entry
  {
    e.(schemaVersion := Repaired(e.schemaVersion), cycleID := Repaired(e.cycleID), typ := RepairedType(e.typ),
       agent := Repaired(e.agent), handoffTo := Repaired(e.handoffTo), gate := Repaired(e.gate),
       summary := Repaired(e.summary),
       files := RepairedAll(e.files),
       prevHash := Utf8.Repair(e.prevHash), hash := Utf8.Repair(e.hash))
  }

  function RepairPiece(p: Piece): Piece
  {
    match p
    case Fixed(_) => p
    case Quoted(value) => Quoted(Utf8.Repair(value))
    case Field(key, value) => Field(key, Utf8.Repair(value))
  }

  function RepairPieces(pieces: seq<Piece>): seq<Piece>
  {
    seq(|pieces|, i requires 0 <= i < |pieces| => RepairPiece(pieces[i]))
  }

  predicate ValidPiece(p: Piece) { !p.Fixed? ==> Utf8.Valid(p.value) }

  predicate ValidPieces(pieces: seq<Piece>) { forall p | p in pieces :: ValidPiece(p) }

  lemma PieceDiverges(escape: Utf8.Escape, p: Piece)
    ensures ValidPiece(p) ==> RepairPiece(p) == p
    ensures !ValidPiece(p) ==> Utf8.Diverge(RenderPiece(escape, RepairPiece(p)), RenderPiece(escape, p))
  {
    if !p.Fixed? {
      Utf8.RepairIsValid(p.value);
      if !Utf8.Valid(p.value) {
        Utf8.RewrittenDiffers(escape, p.value);
        var a, b := Utf8.Written(escape, Utf8.Repair(p.value)), Utf8.Written(escape, p.value);
        Utf8.DivergeLate([34], a, b);
        Utf8.DivergeEarly([34] + a, [34] + b, [34], [34]);
        if p.Field? {
          Utf8.DivergeLate(p.key, InQuotes(escape, Utf8.Repair(p.value)), InQuotes(escape, p.value));
        }
      }
    }
  }

  lemma PiecesConcat(a: seq<Piece>, b: seq<Piece>)
    ensures RepairPieces(a + b) == RepairPieces(a) + RepairPieces(b)
    ensures ValidPieces(a + b) <==> ValidPieces(a) && ValidPieces(b)
  {
    forall p
      ensures p in a + b <==> p in a || p in b
    {
    }
  }

  lemma OnePiece(p: Piece)
    ensures RepairPieces([p]) == [RepairPiece(p)] && (ValidPieces([p]) <==> ValidPiece(p))
  {
    assert p in [p];
  }

  lemma PiecesSplit(escape: Utf8.Escape, p: Piece, rest: seq<Piece>)
    ensures Render(escape, [p] + rest) == RenderPiece(escape, p) + Render(escape, rest)
    ensures RepairPieces([p] + rest) == [RepairPiece(p)] + RepairPieces(rest)
    ensures ValidPieces([p] + rest) <==> ValidPiece(p) && ValidPieces(rest)
  {
    PiecesConcat([p], rest);
    OnePiece(p);
    assert ([p] + rest)[0] == p && ([p] + rest)[1..] == rest;
  }

  /** Whether writing the line that was read back gives the line again, or one that parts from it. */
  ghost predicate KeptOrDiverges(escape: Utf8.Escape, pieces: seq<Piece>)
  {
    if ValidPieces(pieces) then RepairPieces(pieces) == pieces
    else Utf8.Diverge(Render(escape, RepairPieces(pieces)), Render(escape, pieces))
  }

  lemma KeptOrDivergesCons(escape: Utf8.Escape, p: Piece, rest: seq<Piece>)
    requires KeptOrDiverges(escape, rest)
    ensures KeptOrDiverges(escape, [p] + rest)
  {
    PieceDiverges(escape, p);
    PiecesSplit(escape, p, rest);
    PiecesSplit(escape, RepairPiece(p), RepairPieces(rest));
    var a, b := RenderPiece(escape, RepairPiece(p)), RenderPiece(escape, p);
    var x, y := Render(escape, RepairPieces(rest)), Render(escape, rest);
    if !ValidPiece(p) {
      Utf8.DivergeEarly(a, b, x, y);
    } else if !ValidPieces(rest) {
      Utf8.DivergeLate(a, x, y);
    }
  }

  /** A line that was read back is written as before exactly when all its strings were valid: at the first
      one that was not, the two lines part. */
  lemma {:induction false} RenderIsKeptIff(escape: Utf8.Escape, pieces: seq<Piece>)
    ensures KeptOrDiverges(escape, pieces)
  {
    if pieces != [] {
      RenderIsKeptIff(escape, pieces[1..]);
      KeptOrDivergesCons(escape, pieces[0], pieces[1..]);
      assert [pieces[0]] + pieces[1..] == pieces;
    }
  }

  predicate ValidText(s: string) { ByteText(s) && Utf8.Valid(Raw(s)) }

  predicate ValidTexts(texts: seq<string>) { forall s | s in texts :: ValidText(s) }

  /** All texts of the entry are valid UTF-8: what a writer could check before appending it. */
  predicate ValidEntry(e: Entry) { ValidHead(e) && ValidTexts(e.files) }

  predicate ValidHead(e: Entry)
  {
    && ValidText(e.schemaVersion) && ValidText(e.cycleID) && (e.typ.Unknown? ==> ValidText(e.typ.name))
    && ValidText(e.agent) && ValidText(e.handoffTo) && ValidText(e.gate) && ValidText(e.summary)
  }

  lemma NamedPiece(key: Bytes, value: Bytes)
    ensures RepairPieces([Fixed(key), Quoted(value)]) == [Fixed(key), Quoted(Utf8.Repair(value))]
    ensures ValidPieces([Fixed(key), Quoted(value)]) <==> Utf8.Valid(value)
  {
    assert Quoted(value) in [Fixed(key), Quoted(value)];
  }

  lemma {:induction false} ElementsRepair(before: string, files: seq<string>)
    requires ByteTexts(files)
    ensures ElementPieces(before, RepairedAll(files)) == RepairPieces(ElementPieces(before, files))
    ensures ValidPieces(ElementPieces(before, files)) <==> ValidTexts(files)
    decreases files
  {
    if files != [] {
      ElementsRepair(",", files[1..]);
      NamedPiece(Raw(before), Raw(files[0]));
      PiecesConcat([Fixed(Raw(before)), Quoted(Raw(files[0]))], ElementPieces(",", files[1..]));
      ValidTextsCons(files);
    }
  }

  lemma ValidTextsCons(texts: seq<string>)
    requires texts != []
    ensures ValidTexts(texts) <==> ValidText(texts[0]) && ValidTexts(texts[1..])
  {
    assert texts == [texts[0]] + texts[1..];
  }

  lemma FilesRepair(files: seq<string>)
    requires ByteTexts(files)
    ensures FilesPieces(RepairedAll(files)) == RepairPieces(FilesPieces(files))
    ensures ValidPieces(FilesPieces(files)) <==> ValidTexts(files)
  {
    var key := ",\"files\":[";
    ElementsRepair(key, files);
    PiecesConcat(ElementPieces(key, files), [Fixed(Raw("]"))]);
  }

  lemma HeadRepairs(e: Entry)
    requires ByteEntry(e)
    ensures HeadPieces(Reread(e)) == RepairPieces(HeadPieces(e))
  {
    var head := HeadPieces(e);
    SevenRepaired(head[0].text, head[1], head[2].text, head[3].text, head[4], head[5].text, head[6]);
    QuotedRepairs(e.schemaVersion);
    QuotedRepairs(e.cycleID);
    TypeRepairs(e.typ);
  }

  lemma QuotedRepairs(s: string)
    requires ByteText(s)
    ensures RepairPiece(Quoted(Raw(s))) == Quoted(Raw(Repaired(s)))
  {
  }

  lemma TypeRepairs(typ: EventType)
    requires typ.Unknown? ==> ByteText(typ.name)
    ensures RepairPiece(TypePiece(typ)) == TypePiece(RepairedType(typ))
  {
    if typ.Unknown? {
      QuotedRepairs(typ.name);
    }
  }

  lemma SevenRepaired(a: Bytes, p: Piece, b: Bytes, c: Bytes, q: Piece, d: Bytes, r: Piece)
    ensures RepairPieces([Fixed(a), p, Fixed(b), Fixed(c), q, Fixed(d), r])
         == [Fixed(a), RepairPiece(p), Fixed(b), Fixed(c), RepairPiece(q), Fixed(d), RepairPiece(r)]
  {
  }

  lemma HeadIsValidIff(e: Entry)
    requires ByteEntry(e)
    ensures ValidPieces(HeadPieces(e)) <==>
      ValidText(e.schemaVersion) && ValidText(e.cycleID) && (e.typ.Unknown? ==> ValidText(e.typ.name))
  {
    var head := HeadPieces(e);
    SevenPieces(head[0].text, head[1], head[2].text, head[3].text, head[4], head[5].text, head[6]);
  }

  lemma SevenPieces(a: Bytes, p: Piece, b: Bytes, c: Bytes, q: Piece, d: Bytes, r: Piece)
    ensures ValidPieces([Fixed(a), p, Fixed(b), Fixed(c), q, Fixed(d), r])
       <==> ValidPiece(p) && ValidPiece(q) && ValidPiece(r)
  {
    var all := [Fixed(a), p, Fixed(b), Fixed(c), q, Fixed(d), r];
    assert p in all && q in all && r in all;
  }

  lemma FieldsRepair(e: Entry)
    requires ByteEntry(e)
    ensures FieldPieces(Reread(e)) == RepairPieces(FieldPieces(e))
    ensures ValidPieces(FieldPieces(e)) <==>
      ValidText(e.agent) && ValidText(e.handoffTo) && ValidText(e.gate) && ValidText(e.summary)
  {
    var fields := FieldPieces(e);
    FourPieces(fields[0], fields[1], fields[2], fields[3]);
  }

  lemma FourPieces(p: Piece, q: Piece, r: Piece, s: Piece)
    ensures ValidPieces([p, q, r, s]) <==> ValidPiece(p) && ValidPiece(q) && ValidPiece(r) && ValidPiece(s)
  {
    var all := [p, q, r, s];
    assert p in all && q in all && r in all && s in all;
  }

  lemma BackRepairs(e: Entry)
    ensures BackPieces(Reread(e)) == RepairPieces(BackPieces(e))
    ensures ValidPieces(BackPieces(e)) <==> Utf8.Valid(e.prevHash) && Utf8.Valid(e.hash)
  {
    var back := BackPieces(e);
    assert back[0] in back && back[1] in back;
  }

  lemma RereadIsBytes(e: Entry)
    requires ByteEntry(e)
    ensures ByteEntry(Reread(e))
  {
  }

  /** Reading back repairs the line's strings one by one. */
  lemma PiecesRepair(e: Entry)
    requires ByteEntry(e) && ByteEntry(Reread(e))
    ensures Pieces(Reread(e)) == RepairPieces(Pieces(e))
    ensures ValidPieces(Pieces(e)) <==> ValidEntry(e) && Utf8.Valid(e.prevHash) && Utf8.Valid(e.hash)
  {
    var head, fields, files, back := HeadPieces(e), FieldPieces(e), FilesPieces(e.files), BackPieces(e);
    HeadRepairs(e);
    HeadIsValidIff(e);
    FieldsRepair(e);
    FilesRepair(e.files);
    BackRepairs(e);
    PiecesConcat(head, fields);
    PiecesConcat(head + fields, files);
    PiecesConcat(head + fields + files, back);
  }

  lemma ContentIsKeptIff(escape: Utf8.Escape, e: Entry)
    requires ByteEntry(e) && Utf8.Valid(e.prevHash)
    ensures KeepsContent(JsonCanon(escape), Reread, e) <==> ValidEntry(e)
  {
    var x := e.(hash := []);
    assert Reread(e).(hash := []) == Reread(x);
    RereadIsBytes(x);
    PiecesRepair(x);
    RenderIsKeptIff(escape, Pieces(x));
  }

  // ---- What verifies -----------------------------------------------------------------------------------

  lemma AsciiIsValid(t: Bytes)
    requires forall b | b in t :: b < 0x80
    ensures Utf8.Valid(t)
  {
    Utf8.AsciiInFront(t, []);
    assert t + [] == t;
  }

  lemma {:induction false} HexIsAscii(d: Bytes)
    ensures forall c | c in Encode(d) :: c < 0x80
  {
    if d != [] {
      HexIsAscii(d[1..]);
    }
  }

  lemma HexIsValid(d: Bytes)
    ensures Utf8.Valid(Encode(d)) && Utf8.Repair(Encode(d)) == Encode(d)
  {
    HexIsAscii(d);
    AsciiIsValid(Encode(d));
    Utf8.RepairIsValid(Encode(d));
  }

  lemma GenesisIsValid()
    ensures Utf8.Valid(Genesis()) && Utf8.Repair(Genesis()) == Genesis()
  {
    AsciiIsValid(Genesis());
    Utf8.RepairIsValid(Genesis());
  }

  lemma HashIsHex(sha: Sha, escape: Utf8.Escape, entries: seq<Entry>, i: nat)
    requires ChainOk(sha, JsonCanon(escape), entries) && i < |entries|
    ensures Utf8.Valid(entries[i].hash) && Utf8.Repair(entries[i].hash) == entries[i].hash
    ensures entries[i].prevHash == Predecessor(entries, i) && ByteEntry(entries[i])
  {
    HashesAreHex(sha, JsonCanon(escape), entries, i);
    HexIsValid(sha(HashInput(JsonCanon(escape), entries[i])));
    assert ByteEntry(entries[i].(hash := []));
  }

  lemma LinkIsHex(sha: Sha, escape: Utf8.Escape, entries: seq<Entry>, i: nat)
    requires ChainOk(sha, JsonCanon(escape), entries) && i < |entries|
    ensures var e := entries[i];
      ByteEntry(e) && Utf8.Valid(e.prevHash) && Utf8.Repair(e.prevHash) == e.prevHash && Utf8.Repair(e.hash) == e.hash
  {
    HashIsHex(sha, escape, entries, i);
    if i == 0 {
      GenesisIsValid();
    } else {
      HashIsHex(sha, escape, entries, i - 1);
    }
  }

  /** The hashes of an intact chain are hex digits, which reading back leaves alone. */
  lemma ChainIsHex(sha: Sha, escape: Utf8.Escape, entries: seq<Entry>)
    requires ChainOk(sha, JsonCanon(escape), entries)
    ensures KeepsHashes(Reread, entries)
    ensures forall e | e in entries :: ByteEntry(e) && Utf8.Valid(e.prevHash)
  {
    forall i | 0 <= i < |entries|
      ensures var e := entries[i];
        ByteEntry(e) && Utf8.Valid(e.prevHash) && Reread(e).prevHash == e.prevHash && Reread(e).hash == e.hash
    {
      LinkIsHex(sha, escape, entries, i);
    }
  }

  /** The listed inputs: what was hashed when the entries were written, and what is when they are read. */
  ghost function RereadInputs(escape: Utf8.Escape, entries: seq<Entry>): set<Bytes>
  {
    ChainInputs(JsonCanon(escape), entries) + ChainInputs(JsonCanon(escape), ReadBack(Reread, entries))
  }

  /** An intact ledger verifies once it has been written and read back exactly when all its texts are valid
      UTF-8. A single byte that is not turns it into one that reads as tampered with. */
  lemma RereadLedgerVerifiesIff(sha: Sha, escape: Utf8.Escape, entries: seq<Entry>)
    requires ChainOk(sha, JsonCanon(escape), entries) && CollisionFree(sha, RereadInputs(escape, entries))
    ensures ChainOk(sha, JsonCanon(escape), ReadBack(Reread, entries)) <==> forall e | e in entries :: ValidEntry(e)
  {
    ChainIsHex(sha, escape, entries);
    ReadBackVerifiesIff(sha, JsonCanon(escape), Reread, entries);
    forall e | e in entries
      ensures KeepsContent(JsonCanon(escape), Reread, e) <==> ValidEntry(e)
    {
      ContentIsKeptIff(escape, e);
    }
  }

  /** Writing and reading a second time, as the broker does for its clients, changes nothing more. */
  lemma RereadTwice(e: Entry)
    requires ByteEntry(e)
    ensures Reread(Reread(e)) == Reread(e)
  {
    RepairedTwice(e.files);
    Utf8.RepairIsValid(e.prevHash);
    Utf8.RepairIsValid(e.hash);
    TextRepairedTwice(e.schemaVersion);
    TextRepairedTwice(e.cycleID);
    TextRepairedTwice(e.agent);
    TextRepairedTwice(e.handoffTo);
    TextRepairedTwice(e.gate);
    TextRepairedTwice(e.summary);
    if e.typ.Unknown? { TextRepairedTwice(e.typ.name); }
  }

  lemma TextRepairedTwice(s: string)
    requires ByteText(s)
    ensures Repaired(Repaired(s)) == Repaired(s)
  {
    Utf8.RepairIsValid(Raw(s));
  }

  lemma {:induction false} RepairedTwice(texts: seq<string>)
    requires ByteTexts(texts)
    ensures RepairedAll(RepairedAll(texts)) == RepairedAll(texts)
  {
    if texts != [] {
      TextRepairedTwice(texts[0]);
      RepairedTwice(texts[1..]);
    }
  }

  // ---- Appends, and what their readers see -----------------------------------------------------------

  lemma SameEventIsAsValid(x: Entry, e: Entry)
    requires LedgerAppend.SameEvent(x, e)
    ensures ValidEntry(x) <==> ValidEntry(e)
  {
    assert x.(prevHash := [], hash := []) == e.(prevHash := [], hash := []);
    assert x == e.(prevHash := x.prevHash, hash := x.hash);
  }

  /** Under every interleaving of appends: the file verifies when it is read back exactly if the old entries
      were valid UTF-8 and so is every entry whose append succeeded. */
  lemma AppendsRereadIff(
      sha: Sha, escape: Utf8.Escape, file0: seq<Entry>, actions: seq<LedgerAppend.Action>, s: LedgerAppend.State)
    requires ChainOk(sha, JsonCanon(escape), file0)
    requires LedgerAppend.Reachable(sha, JsonCanon(escape), file0, actions, s)
    requires CollisionFree(sha, RereadInputs(escape, s.file))
    ensures ChainOk(sha, JsonCanon(escape), ReadBack(Reread, s.file))
       <==> (forall e | e in file0 :: ValidEntry(e))
            && forall g | g in s.writers && LedgerAppend.HasWritten(s, g) :: ValidEntry(s.writers[g].entry)
  {
    LedgerAppend.AppendsLinearise(sha, JsonCanon(escape), file0, actions, s);
    RereadLedgerVerifiesIff(sha, escape, s.file);
    LinearisedIsValidIff(file0, s);
  }

  lemma LinearisedIsValidIff(file0: seq<Entry>, s: LedgerAppend.State)
    requires LedgerAppend.IsLinearisation(file0, s, s.order)
    ensures (forall e | e in s.file :: ValidEntry(e))
       <==> (forall e | e in file0 :: ValidEntry(e))
            && forall g | g in s.writers && LedgerAppend.HasWritten(s, g) :: ValidEntry(s.writers[g].entry)
  {
    var n := |file0|;
    forall i | 0 <= i < |s.order|
      ensures ValidEntry(s.file[n + i]) <==> ValidEntry(s.writers[s.order[i]].entry)
    {
      SameEventIsAsValid(s.file[n + i], s.writers[s.order[i]].entry);
    }
    if forall e | e in s.file :: ValidEntry(e) {
      forall g | g in s.writers && LedgerAppend.HasWritten(s, g)
        ensures ValidEntry(s.writers[g].entry)
      {
        var i :| 0 <= i < |s.order| && s.order[i] == g;
        assert s.file[n + i] in s.file;
      }
      forall e | e in file0
        ensures ValidEntry(e)
      {
        assert e in s.file[..n];
      }
    } else {
      var i :| 0 <= i < |s.file| && !ValidEntry(s.file[i]);
      if i < n {
        assert s.file[..n][i] == s.file[i];
      } else {
        assert s.order[i - n] in s.order;
      }
    }
  }

  // ---- The output of a gate ------------------------------------------------------------------------------

  const MAX_OUTPUT := 4000

  /** The tail of the output is kept, counted in bytes, behind a mark. */
  function TruncateOutput(mark: Bytes, s: Bytes, max: nat): Bytes
  {
    if |s| <= max then s else mark + s[|s| - max..]
  }

  /** The cut, if there is one, falls between two runes. */
  predicate CutBetweenRunes(s: Bytes, max: nat)
  {
    |s| <= max || max == 0 || !Utf8.Continues(s[|s| - max])
  }

  lemma TruncatedIsValidIff(mark: Bytes, s: Bytes, max: nat)
    requires Utf8.Valid(s) && forall b | b in mark :: b < 0x80
    ensures Utf8.Valid(TruncateOutput(mark, s, max)) <==> CutBetweenRunes(s, max)
  {
    if |s| > max {
      CutIsValidIff(mark, s, |s| - max);
    }
  }

  lemma CutIsValidIff(mark: Bytes, s: Bytes, k: nat)
    requires Utf8.Valid(s) && k <= |s| && forall b | b in mark :: b < 0x80
    ensures Utf8.Valid(mark + s[k..]) <==> k == |s| || !Utf8.Continues(s[k])
  {
    Utf8.AsciiInFront(mark, s[k..]);
    Utf8.SuffixIsValidIff(s, k);
  }

  function Mark(): (mark: Bytes)
    ensures forall b | b in mark :: b < 0x80
  {
    Raw("...truncated...\n")
  }

  /** The report of a command that succeeded. */
  function PassedReport(gate: string, output: Bytes): GateReport
  {
    GateReport(gate, true, Text(TruncateOutput(Mark(), output, MAX_OUTPUT)), "", [])
  }

  lemma ReportIsValidIff(gate: string, output: Bytes)
    requires Utf8.Valid(output)
    ensures ByteText(PassedReport(gate, output).stdout)
    ensures ValidText(PassedReport(gate, output).stdout) <==> CutBetweenRunes(output, MAX_OUTPUT)
  {
    TruncatedIsValidIff(Mark(), output, MAX_OUTPUT);
  }

  lemma GateEntryIsValidIff(now: int, id: string, r: GateReport)
    requires ValidText(id) && ValidText(r.gate) && r.passed && ByteText(r.stdout)
    ensures ByteEntry(GateEntry(now, id, r))
    ensures ValidEntry(GateEntry(now, id, r)) <==> ValidText(r.stdout)
  {
    AsciiIsValid([]);
    AsciiIsValid(Raw(SCHEMA_VERSION));
  }

  /** A gate that passes is recorded with the tail of its output. If all of that output was valid, the ledger
      still verifies when read back exactly unless the cut fell inside a rune. */
  lemma GateOutputRereadsIff(
      sha: Sha, escape: Utf8.Escape, ledger: seq<Entry>, now: int, id: string, gate: string, output: Bytes, x: Entry)
    requires ChainOk(sha, JsonCanon(escape), ledger) && forall e | e in ledger :: ValidEntry(e)
    requires ValidText(id) && ValidText(gate) && Utf8.Valid(output)
    requires Link(sha, JsonCanon(escape), GateEntry(now, id, PassedReport(gate, output)), Tail(ledger)) == Some(x)
    requires CollisionFree(sha, RereadInputs(escape, ledger + [x]))
    ensures ChainOk(sha, JsonCanon(escape), ledger + [x])
    ensures ChainOk(sha, JsonCanon(escape), ReadBack(Reread, ledger + [x])) <==> CutBetweenRunes(output, MAX_OUTPUT)
  {
    var r := PassedReport(gate, output);
    ReportIsValidIff(gate, output);
    GateEntryIsValidIff(now, id, r);
    AppendRereadsIff(sha, escape, ledger, GateEntry(now, id, r), x);
  }

  lemma AppendRereadsIff(sha: Sha, escape: Utf8.Escape, ledger: seq<Entry>, e: Entry, x: Entry)
    requires ChainOk(sha, JsonCanon(escape), ledger) && forall y | y in ledger :: ValidEntry(y)
    requires Link(sha, JsonCanon(escape), e, Tail(ledger)) == Some(x)
    requires CollisionFree(sha, RereadInputs(escape, ledger + [x]))
    ensures ChainOk(sha, JsonCanon(escape), ledger + [x])
    ensures ChainOk(sha, JsonCanon(escape), ReadBack(Reread, ledger + [x])) <==> ValidEntry(e)
  {
    LinkExtends(sha, JsonCanon(escape), ledger, e);
    RereadLedgerVerifiesIff(sha, escape, ledger + [x]);
    LedgerAppend.LinkKeepsEvent(sha, JsonCanon(escape), e, Tail(ledger));
    SameEventIsAsValid(x, e);
    assert forall y :: y in ledger + [x] <==> y in ledger || y == x;
  }

  /** A two-byte letter and one-byte ones behind it: one byte too long, and cut behind the first. */
  function LongOutput(max: nat): Bytes
    requires max > 0
  {
    [0xC3, 0xA9] + seq(max - 1, i => 97)
  }

  lemma LongOutputIsCut(max: nat)
    requires max > 0
    ensures Utf8.Valid(LongOutput(max)) && |LongOutput(max)| == max + 1 && !CutBetweenRunes(LongOutput(max), max)
  {
    var rest: Bytes := seq(max - 1, i => 97);
    AsciiIsValid(rest);
    Utf8.SplitRune([0xC3, 0xA9], rest);
  }

  /** It happens, in a ledger whose one entry records this output of whatever gate. */
  lemma CutOutputHappens(sha: Sha, escape: Utf8.Escape, now: int, id: string, gate: string, output: Bytes, x: Entry)
    requires ValidText(id) && ValidText(gate) && output == LongOutput(MAX_OUTPUT)
    requires Link(sha, JsonCanon(escape), GateEntry(now, id, PassedReport(gate, output)), Genesis()) == Some(x)
    requires CollisionFree(sha, RereadInputs(escape, [x]))
    ensures Utf8.Valid(output) && |output| == 4001
    ensures ChainOk(sha, JsonCanon(escape), [x]) && !ChainOk(sha, JsonCanon(escape), ReadBack(Reread, [x]))
  {
    LongOutputIsCut(MAX_OUTPUT);
    CutOutputBreaks(sha, escape, now, id, gate, output, x);
  }

  lemma CutOutputBreaks(sha: Sha, escape: Utf8.Escape, now: int, id: string, gate: string, output: Bytes, x: Entry)
    requires ValidText(id) && ValidText(gate) && Utf8.Valid(output) && !CutBetweenRunes(output, MAX_OUTPUT)
    requires Link(sha, JsonCanon(escape), GateEntry(now, id, PassedReport(gate, output)), Genesis()) == Some(x)
    requires CollisionFree(sha, RereadInputs(escape, [x]))
    ensures ChainOk(sha, JsonCanon(escape), [x]) && !ChainOk(sha, JsonCanon(escape), ReadBack(Reread, [x]))
  {
    assert [] + [x] == [x];
    GateOutputRereadsIff(sha, escape, [], now, id, gate, output, x);
  }
}
