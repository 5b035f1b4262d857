/** read_cover_art_file (native/src/cover_art_service.cpp): reading a whole file into a buffer of the
    size it had when it was opened. The kernel's answers to read are a list; when they run out, the
    reader is still waiting for the next one. */
module CoverArtFiles {
  import opened Wrappers

  type Byte = bv8

  const MAX_SIZE := 16 * 1024 * 1024

  /** fstat's answer. */
  datatype Stat = Unavailable | Stat(regular: bool, size: int)

  datatype ReadAnswer = Chunk(bytes: seq<Byte>) | EndOfFile | Interrupted | Fails

  datatype Outcome =
    | Bytes(bytes: seq<Byte>) | CannotOpen | InvalidFile | NotReady | Changed | Unreadable | Waiting

  /** read returns no more than it was asked for, and 0 only as end of file. */
  predicate Answerable(answers: seq<ReadAnswer>, wanted: nat)
    decreases |answers|
  {
    wanted == 0 || answers == [] ||
    match answers[0]
    case Chunk(bytes) => 0 < |bytes| <= wanted && Answerable(answers[1..], wanted - |bytes|)
    case Interrupted => Answerable(answers[1..], wanted)
    case _ => true
  }

  /** What reading `wanted` more bytes comes to, after `done`. */
  function Reading(done: seq<Byte>, wanted: nat, answers: seq<ReadAnswer>): Outcome
    requires Answerable(answers, wanted)
    decreases |answers|
  {
    if wanted == 0 then Bytes(done)
    else if answers == [] then Waiting
    else
      match answers[0]
      case Chunk(bytes) => Reading(done + bytes, wanted - |bytes|, answers[1..])
      case Interrupted => Reading(done, wanted, answers[1..])
      case EndOfFile => Changed
      case Fails => Unreadable
  }

  predicate Admissible(s: Stat) {
    s.Stat? && s.regular && 0 <= s.size <= MAX_SIZE
  }

  method ReadCoverArtFile(isOpen: bool, stat: Stat, answers: seq<ReadAnswer>) returns (r: Outcome)
    requires Admissible(stat) ==> Answerable(answers, stat.size)
    ensures r.CannotOpen? <==> !isOpen
    ensures r.InvalidFile? <==>
      isOpen && (stat.Unavailable? || !stat.regular || stat.size < 0 || stat.size > 16_777_216)
    ensures r.NotReady? <==> isOpen && stat == Stat(true, 0)
    ensures isOpen && Admissible(stat) && stat.size > 0 ==> r == Reading([], stat.size, answers)
  {
    if !isOpen { return CannotOpen; }
    if stat.Unavailable? || !stat.regular || stat.size < 0 || stat.size > MAX_SIZE { return InvalidFile; }
    if stat.size == 0 { return NotReady; }
    var result := new Byte[stat.size](_ => 0);
    var offset, k := 0, 0;
    while offset < result.Length
      invariant 0 <= offset <= result.Length && 0 <= k <= |answers|
      invariant Answerable(answers[k..], result.Length - offset)
      invariant Reading([], stat.size, answers) == Reading(result[..offset], result.Length - offset, answers[k..])
      decreases |answers| - k
    {
      if k == |answers| { return Waiting; }
      var answer := answers[k];
      assert answers[k..][1..] == answers[k + 1..];
      match answer {
        case Chunk(bytes) =>
          Store(result, offset, bytes);
          offset := offset + |bytes|;
        case Interrupted =>
        case EndOfFile => return Changed;
        case Fails => return Unreadable;
      }
      k := k + 1;
    }
    assert result[..offset] == result[..];
    r := Bytes(result[..]);
  }

  /** What read does to the buffer. */
  method Store(a: array<Byte>, offset: nat, bytes: seq<Byte>)
    requires offset + |bytes| <= a.Length
    modifies a
    ensures a[..offset + |bytes|] == old(a[..offset]) + bytes
  {
    forall i | 0 <= i < |bytes| { a[offset + i] := bytes[i]; }
  }

  /** The answers a file with this content gives when read on from `offset`. */
  predicate AnswersOf(content: seq<Byte>, offset: nat, answers: seq<ReadAnswer>)
    decreases |answers|
  {
    answers == [] ||
    match answers[0]
    case Chunk(bytes) => offset + |bytes| <= |content| && bytes == content[offset..offset + |bytes|]
                         && AnswersOf(content, offset + |bytes|, answers[1..])
    case Interrupted => AnswersOf(content, offset, answers[1..])
    case EndOfFile => offset >= |content|
    case Fails => true
  }

  /** However the reads are cut up: if bytes come out, they are the file's first `size` bytes; and
      the file is reported as changed only if it had become shorter. */
  lemma {:induction false} ReadsTheFile(content: seq<Byte>, offset: nat, size: nat, answers: seq<ReadAnswer>)
    requires offset <= size && offset <= |content|
    requires AnswersOf(content, offset, answers) && Answerable(answers, size - offset)
    ensures var r := Reading(content[..offset], size - offset, answers);
      && (r.Bytes? ==> size <= |content| && r.bytes == content[..size])
      && (r.Changed? ==> |content| < size)
    decreases |answers|
  {
    if offset < size && answers != [] {
      match answers[0]
      case Chunk(bytes) =>
        assert content[..offset] + bytes == content[..offset + |bytes|];
        ReadsTheFile(content, offset + |bytes|, size, answers[1..]);
      case Interrupted => ReadsTheFile(content, offset, size, answers[1..]);
      case _ =>
    }
  }

  /** An unchanged file is read whole once enough answers have come, if none is a failure. */
  lemma {:induction false} EnoughReadsFinish(content: seq<Byte>, offset: nat, answers: seq<ReadAnswer>)
    requires offset <= |content|
    requires AnswersOf(content, offset, answers) && Answerable(answers, |content| - offset)
    requires Fails !in answers
    ensures var r := Reading(content[..offset], |content| - offset, answers);
      r == Bytes(content) || r == Waiting
    ensures Total(answers) >= |content| - offset ==>
              Reading(content[..offset], |content| - offset, answers) == Bytes(content)
    decreases |answers|
  {
    if offset == |content| {
      assert content[..offset] == content;
    } else if answers != [] {
      match answers[0]
      case Chunk(bytes) =>
        assert content[..offset] + bytes == content[..offset + |bytes|];
        EnoughReadsFinish(content, offset + |bytes|, answers[1..]);
      case Interrupted => EnoughReadsFinish(content, offset, answers[1..]);
      case _ =>
    }
  }

  /** Bytes delivered before the first answer that ends the reading. */
  function Total(answers: seq<ReadAnswer>): nat {
    if answers == [] then 0
    else
      match answers[0]
      case Chunk(bytes) => |bytes| + Total(answers[1..])
      case Interrupted => Total(answers[1..])
      case _ => 0
  }

  /** The bytes delivered before the first answer that ends the reading, and that answer. */
  function Delivered(answers: seq<ReadAnswer>): seq<Byte> {
    if answers == [] then []
    else
      match answers[0]
      case Chunk(bytes) => bytes + Delivered(answers[1..])
      case Interrupted => Delivered(answers[1..])
      case _ => []
  }

  function Stop(answers: seq<ReadAnswer>): Option<ReadAnswer> {
    if answers == [] then None
    else if answers[0].Chunk? || answers[0].Interrupted? then Stop(answers[1..])
    else Some(answers[0])
  }

  /** How the reading ends, whatever the answers: with the first `wanted` bytes delivered if there are as
      many; otherwise as the answer that stopped it says, end of file as a change of the file and a
      failure as such; and it waits if there is none. */
  lemma {:induction false} OutcomeOfAnswers(done: seq<Byte>, wanted: nat, answers: seq<ReadAnswer>)
    requires Answerable(answers, wanted)
    ensures Reading(done, wanted, answers) ==
      if |Delivered(answers)| >= wanted then Bytes(done + Delivered(answers)[..wanted])
      else match Stop(answers) case None => Waiting case Some(EndOfFile) => Changed case Some(_) => Unreadable
    decreases |answers|
  {
    if wanted == 0 {
      assert done + Delivered(answers)[..0] == done;
    } else if answers != [] {
      match answers[0]
      case Chunk(bytes) =>
        OutcomeOfAnswers(done + bytes, wanted - |bytes|, answers[1..]);
        var rest := Delivered(answers[1..]);
        if |rest| >= wanted - |bytes| {
          assert done + bytes + rest[..wanted - |bytes|] == done + (bytes + rest)[..wanted];
        }
      case Interrupted => OutcomeOfAnswers(done, wanted, answers[1..]);
      case _ =>
    }
  }
}
