/** Append-only files of records, each carrying the hash of the one before it. */
module HashChain {
  import opened Options

  /** A record's hash covers everything else in it; equal hashes mean equal content. */
  datatype Hash<E> = NoHash | HashOf(sequence: int, previous: Hash<E>, event: E) | OtherHash(text: string)

  datatype Record<E> = Record(sequence: int, previous: Hash<E>, hash: Hash<E>, event: E)

  /** The lines of the file; a line that does not decode is `None`. */
  type Lines<E> = seq<Option<Record<E>>>

  function RecordHash<E>(r: Record<E>): Hash<E> { HashOf(r.sequence, r.previous, r.event) }

  function TailHash<E>(lines: Lines<E>): Hash<E> {
    if lines == [] || lines[|lines| - 1].None? then NoHash else lines[|lines| - 1].value.hash
  }

  /** Line i continues the chain of the lines before it. */
  predicate Links<E(==)>(lines: Lines<E>, i: nat)
    requires i < |lines|
  {
    && lines[i].Some? && lines[i].value.sequence == i + 1
    && lines[i].value.previous == TailHash(lines[..i]) && lines[i].value.hash == RecordHash(lines[i].value)
  }

  ghost predicate Chain<E>(lines: Lines<E>) { forall i | 0 <= i < |lines| :: Links(lines, i) }

  function NextRecord<E>(lines: Lines<E>, e: E): Record<E> {
    var r := Record(|lines| + 1, TailHash(lines), NoHash, e);
    r.(hash := RecordHash(r))
  }

  lemma ChainGrows<E>(lines: Lines<E>, e: E)
    requires Chain(lines)
    ensures Chain(lines + [Some(NextRecord(lines, e))])
  {
    var more := lines + [Some(NextRecord(lines, e))];
    assert more[..|lines|] == lines;
    forall i | 0 <= i < |more|
      ensures Links(more, i)
    {
      assert more[..i] == lines[..i];
      assert i < |lines| ==> Links(lines, i);
    }
  }

  lemma ChainPrefix<E>(lines: Lines<E>, n: nat)
    requires Chain(lines) && n <= |lines|
    ensures Chain(lines[..n])
  {
    forall i | 0 <= i < n
      ensures Links(lines[..n], i)
    {
      assert lines[..n][..i] == lines[..i];
      assert Links(lines, i);
    }
  }

  /** The last hash determines every record of the chain. */
  lemma {:induction false} LastHashDeterminesChain<E>(a: Lines<E>, b: Lines<E>)
    requires Chain(a) && Chain(b) && TailHash(a) == TailHash(b)
    ensures a == b
  {
    assert a != [] ==> Links(a, |a| - 1);
    assert b != [] ==> Links(b, |b| - 1);
    if a != [] && b != [] {
      ChainPrefix(a, |a| - 1);
      ChainPrefix(b, |b| - 1);
      LastHashDeterminesChain(a[..|a| - 1], b[..|b| - 1]);
      assert a == a[..|a| - 1] + [a[|a| - 1]];
      assert b == b[..|b| - 1] + [b[|b| - 1]];
    }
  }
}
