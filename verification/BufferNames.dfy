/** Names of shared memory objects: the decimal owner id and buffer index between braces, and a suffix for the role. */
module BufferNames {
  import opened Wrappers

  /** Decimal digits, as an output stream prints an unsigned integer. */
  function Decimal(n: nat): (digits: string) {
    if n < 10 then [Digit(n)] else Decimal(n / 10) + [Digit(n % 10)]
  }

  function Digit(d: nat): char
    requires d < 10
  {
    (d + '0' as int) as char
  }

  function DigitValue(c: char): nat {
    if '0' <= c <= '9' then c as int - '0' as int else 0
  }

  function Value(digits: string): nat {
    if digits == [] then 0 else 10 * Value(digits[..|digits| - 1]) + DigitValue(digits[|digits| - 1])
  }

  lemma {:induction false} DecimalReadsBack(n: nat)
    ensures Value(Decimal(n)) == n && '}' !in Decimal(n)
  {
    if n < 10 {
      assert Decimal(n)[..0] == [];
    } else {
      DecimalReadsBack(n / 10);
      assert Decimal(n)[..|Decimal(n)| - 1] == Decimal(n / 10);
    }
  }

  function MatrixBufferName(ownerPid: nat, k: nat, suffix: string): string {
    "mat_buff_uid{" + (Decimal(ownerPid) + ("}_k{" + (Decimal(k) + ("}" + suffix))))
  }

  function QueueName(ownerPid: nat, suffix: string): string {
    "spsc_queue_buffer_uid{" + (Decimal(ownerPid) + ("}" + suffix))
  }

  function FutexName(ownerPid: nat, suffix: string): string {
    "futex_uid{" + (Decimal(ownerPid) + ("}" + suffix))
  }

  // ---------- reading a name back ----------

  /** What follows the given beginning, if the text has it. */
  function After(text: string, beginning: string): Option<string> {
    if beginning <= text then Some(text[|beginning|..]) else None
  }

  /** The text before the first closing brace, and the text from it on. */
  function UpToBrace(text: string): (string, string) {
    if text == [] || text[0] == '}' then ([], text)
    else
      var (before, rest) := UpToBrace(text[1..]);
      ([text[0]] + before, rest)
  }

  lemma {:induction false} BraceFound(before: string, rest: string)
    requires '}' !in before && rest != [] && rest[0] == '}'
    ensures UpToBrace(before + rest) == (before, rest)
  {
    if before == [] {
      assert before + rest == rest;
    } else {
      assert before[0] in before;
      assert (before + rest)[1..] == before[1..] + rest;
      BraceFound(before[1..], rest);
      assert before == [before[0]] + before[1..];
    }
  }

  lemma AfterBeginning(beginning: string, rest: string)
    ensures After(beginning + rest, beginning) == Some(rest)
  {
  }

  /** Owner, index and suffix of a matrix buffer name. */
  function ReadName(name: string): Option<(nat, nat, string)> {
    match After(name, "mat_buff_uid{")
    case None => None
    case Some(tail) =>
      var (owner, afterOwner) := UpToBrace(tail);
      match After(afterOwner, "}_k{")
      case None => None
      case Some(indexTail) =>
        var (index, afterIndex) := UpToBrace(indexTail);
        match After(afterIndex, "}")
        case None => None
        case Some(suffix) => Some((Value(owner), Value(index), suffix))
  }

  /** Round trip: the name determines owner, index and suffix. */
  lemma NameReadsBack(ownerPid: nat, k: nat, suffix: string)
    ensures ReadName(MatrixBufferName(ownerPid, k, suffix)) == Some((ownerPid, k, suffix))
  {
    var tail3 := "}" + suffix;
    var tail2 := Decimal(k) + tail3;
    var tail1 := "}_k{" + tail2;
    AfterBeginning("mat_buff_uid{", Decimal(ownerPid) + tail1);
    DecimalReadsBack(ownerPid);
    DecimalReadsBack(k);
    BraceFound(Decimal(ownerPid), tail1);
    AfterBeginning("}_k{", tail2);
    BraceFound(Decimal(k), tail3);
    AfterBeginning("}", suffix);
  }

  /** Owner and suffix of a name with one number in it. */
  function ReadOwner(name: string, beginning: string): Option<(nat, string)> {
    match After(name, beginning)
    case None => None
    case Some(tail) =>
      var (owner, afterOwner) := UpToBrace(tail);
      match After(afterOwner, "}")
      case None => None
      case Some(suffix) => Some((Value(owner), suffix))
  }

  /** Queue and futex names, too, determine owner and suffix. */
  lemma OwnerReadsBack(ownerPid: nat, suffix: string)
    ensures ReadOwner(QueueName(ownerPid, suffix), "spsc_queue_buffer_uid{") == Some((ownerPid, suffix))
    ensures ReadOwner(FutexName(ownerPid, suffix), "futex_uid{") == Some((ownerPid, suffix))
  {
    var tail := "}" + suffix;
    AfterBeginning("spsc_queue_buffer_uid{", Decimal(ownerPid) + tail);
    AfterBeginning("futex_uid{", Decimal(ownerPid) + tail);
    DecimalReadsBack(ownerPid);
    BraceFound(Decimal(ownerPid), tail);
    AfterBeginning("}", suffix);
  }

  /** The text of the names, on an example of each kind. */
  lemma NamesLookLikeThis()
    ensures MatrixBufferName(4711, 12, "_tr") == "mat_buff_uid{4711}_k{12}_tr"
    ensures QueueName(4711, "_req") == "spsc_queue_buffer_uid{4711}_req"
    ensures FutexName(4711, "") == "futex_uid{4711}"
  {
    assert Decimal(12) == "12";
    assert Decimal(47) == "47";
    assert Decimal(471) == "471";
    assert Decimal(4711) == "4711";
  }

  /** Different owners, indices or roles never share a matrix buffer, nor different owners a queue or a futex; and no
      matrix buffer is a queue or a futex. */
  lemma NamesNeverAlias(p: nat, k: nat, suffix: string, p': nat, k': nat, suffix': string)
    ensures MatrixBufferName(p, k, suffix) == MatrixBufferName(p', k', suffix') ==>
      p == p' && k == k' && suffix == suffix'
    ensures QueueName(p, suffix) == QueueName(p', suffix') ==> p == p' && suffix == suffix'
    ensures FutexName(p, suffix) == FutexName(p', suffix') ==> p == p' && suffix == suffix'
    ensures MatrixBufferName(p, k, suffix) != QueueName(p', suffix')
    ensures MatrixBufferName(p, k, suffix) != FutexName(p', suffix')
    ensures QueueName(p, suffix) != FutexName(p', suffix')
  {
    NameReadsBack(p, k, suffix);
    NameReadsBack(p', k', suffix');
    OwnerReadsBack(p, suffix);
    OwnerReadsBack(p', suffix');
    assert MatrixBufferName(p, k, suffix)[0] == 'm';
    assert QueueName(p', suffix')[0] == 's' && QueueName(p, suffix)[0] == 's';
    assert FutexName(p', suffix')[0] == 'f';
  }
}
