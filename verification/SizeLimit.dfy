/** The reader that stops a feed source growing past its size limit. */
module SizeLimit {
  /** What one Read answers beside its bytes. */
  datatype Error = Nil | EOF | TooLarge | Failed

  /** How the source is disposed in one read: it fails, or has so many bytes ready, possibly none. */
  datatype Mood = Fails | Offers(count: nat)

  function Least(a: nat, b: nat): nat {
    if a < b then a else b
  }

  /** A source that reports its end with zero bytes; it may answer with fewer bytes than asked, or none, or fail. */
  class Source<T> {
    const data: seq<T>
    var at: nat

    ghost predicate Valid()
      reads this
    {
      at <= |data|
    }

    constructor (data: seq<T>)
      ensures Valid() && this.data == data && at == 0
    {
      this.data := data;
      at := 0;
    }

    method Read(size: nat, mood: Mood) returns (bytes: seq<T>, err: Error)
      requires Valid()
      modifies this`at
      ensures Valid() && at == old(at) + |bytes| && bytes == data[old(at)..at]
      ensures mood.Fails? ==> err == Failed && bytes == []
      ensures mood.Offers? && old(at) == |data| && size > 0 ==> err == EOF && bytes == []
      ensures mood.Offers? && !(old(at) == |data| && size > 0) ==>
                err == Nil && |bytes| == Least(Least(mood.count, size), |data| - old(at))
    {
      if mood.Fails? {
        return [], Failed;
      }
      if at == |data| && size > 0 {
        return [], EOF;
      }
      var n := Least(Least(mood.count, size), |data| - at);
      bytes, at, err := data[at..at + n], at + n, Nil;
    }
  }

  class LimitedReader<T> {
    const source: Source<T>
    const limit: nat
    var remaining: int

    /** No error yet: exactly the bytes taken from the source were charged to the budget. */
    ghost predicate Clean()
      reads this, source
    {
      source.Valid() && 0 <= remaining && source.at == limit - remaining
    }

    constructor (source: Source<T>, limit: nat)
      requires source.Valid() && source.at == 0
      ensures Clean() && this.source == source && this.limit == limit && remaining == limit
    {
      this.source, this.limit, this.remaining := source, limit, limit;
    }

    /** With the budget spent, one more byte is asked for, to tell a source that fits from one that does not. */
    method Read(size: nat, mood: Mood) returns (bytes: seq<T>, err: Error)
      requires Clean()
      modifies this`remaining, source`at
      ensures old(source.at) + |bytes| <= |source.data|
      ensures bytes == source.data[old(source.at)..old(source.at) + |bytes|]
      ensures err == Nil ==> Clean() && source.at == old(source.at) + |bytes|
      // a failing source
      ensures mood.Fails? ==> err == Failed && bytes == []
      // within the budget: what the source has ready, as far as it fits the buffer and the budget
      ensures mood.Offers? && old(source.at) < limit && (old(source.at) < |source.data| || size == 0) ==>
                err == Nil &&
                |bytes| == Least(Least(mood.count, size), Least(limit, |source.data|) - old(source.at))
      ensures mood.Offers? && old(source.at) < limit && old(source.at) == |source.data| && size > 0 ==>
                err == EOF && bytes == []
      // with the budget spent: the end, a source that is too large, or a source that does not say yet
      ensures mood.Offers? && old(source.at) == limit ==>
                bytes == [] &&
                err == if limit == |source.data| then EOF else if mood.count > 0 then TooLarge else Nil
    {
      if remaining <= 0 {
        var one, e := source.Read(1, mood);
        if e == EOF {
          return [], EOF;
        }
        if e != Nil {
          return [], e;
        }
        if |one| > 0 {
          return [], TooLarge;
        }
        return [], Nil;
      }
      bytes, err := source.Read(if size > remaining then remaining else size, mood);
      remaining := remaining - |bytes|;
    }

    /** A caller reading with buffers of any sizes up to the first error gets a prefix of at most limit bytes. That
        error is the end of the source only if all of it was delivered, and the size error only if it does not fit.
        From a source that always has something ready, enough reads do come to one of the two. */
    method ReadToError(sizes: seq<nat>, moods: seq<Mood>) returns (text: seq<T>, err: Error)
      requires Clean() && source.at == 0 && |moods| == |sizes|
      modifies this`remaining, source`at
      ensures text <= source.data && |text| <= limit
      ensures err == EOF ==> text == source.data && |source.data| <= limit
      ensures err == TooLarge ==> |source.data| > limit && text == source.data[..limit]
      ensures AlwaysReady(sizes, moods) && |sizes| > Least(|source.data|, limit) ==>
                err == if |source.data| <= limit then EOF else TooLarge
    {
      text, err := [], Nil;
      var k := 0;
      while k < |sizes| && err == Nil
        invariant k <= |sizes| && |text| <= limit && text <= source.data
        invariant err == Nil ==> Clean() && |text| == source.at
        invariant err == EOF ==> |text| == |source.data|
        invariant err == TooLarge ==> |text| == limit < |source.data|
        invariant AlwaysReady(sizes, moods) ==> err != Failed && (err == Nil ==> |text| >= k)
      {
        var bytes;
        bytes, err := Read(sizes[k], moods[k]);
        text, k := text + bytes, k + 1;
      }
    }
  }

  predicate AlwaysReady(sizes: seq<nat>, moods: seq<Mood>) {
    && |moods| == |sizes|
    && forall k :: 0 <= k < |sizes| ==> sizes[k] > 0 && moods[k].Offers? && moods[k].count > 0
  }
}
