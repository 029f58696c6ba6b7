/** The stat identity of a corpus member, and the five leading fields both line formats spell it
    with. */
module Stat {
  import opened Bytes

  datatype StatKey = StatKey(dev: U64, ino: U64, size: U64, mtime: Stamp, ctime: Stamp)

  /** One space-terminated field, then the rest of the line. */
  function Field(text: Bytes, rest: Bytes): Bytes {
    text + [' '] + rest
  }

  function PrintKey(key: StatKey, rest: Bytes): Bytes {
    Field(Decimal(key.dev), Field(Decimal(key.ino), Field(Decimal(key.size),
      Field(PrintStamp(key.mtime), Field(PrintStamp(key.ctime), rest)))))
  }

  /** Every byte of `part` is a byte of `whole`. */
  predicate Within(part: Bytes, whole: Bytes) {
    forall c | c in part :: c in whole
  }

  /** `next()` on the space-split line, parsed as a `u64`. */
  function TakeU64(line: Bytes): (r: Option<(U64, Bytes)>)
    ensures r.Some? ==> Within(r.value.1, line)
  {
    var (text, rest) :- SplitOnce(line, ' ');
    var n :- ParseUnsigned(text, U64_MAX);
    Some((n, rest))
  }

  function TakeStamp(line: Bytes): (r: Option<(Stamp, Bytes)>)
    ensures r.Some? ==> Within(r.value.1, line)
  {
    var (text, rest) :- SplitOnce(line, ' ');
    var t :- ParseStamp(text);
    Some((t, rest))
  }

  function ParseKey(line: Bytes): (r: Option<(StatKey, Bytes)>)
    ensures r.Some? ==> Within(r.value.1, line)
  {
    var (dev, r1) :- TakeU64(line);
    var (ino, r2) :- TakeU64(r1);
    var (size, r3) :- TakeU64(r2);
    var (mtime, r4) :- TakeStamp(r3);
    var (ctime, r5) :- TakeStamp(r4);
    Some((StatKey(dev, ino, size, mtime, ctime), r5))
  }

  lemma TakeFieldU64(n: U64, rest: Bytes)
    ensures TakeU64(Field(Decimal(n), rest)) == Some((n, rest))
  {
    SplitOnceAt(Decimal(n), ' ', rest);
    ParseUnsignedDecimal(n, U64_MAX);
  }

  lemma TakeFieldStamp(t: Stamp, rest: Bytes)
    ensures TakeStamp(Field(PrintStamp(t), rest)) == Some((t, rest))
  {
    SplitOnceAt(PrintStamp(t), ' ', rest);
    ParsePrintedStamp(t);
  }

  lemma ParsePrintedKey(key: StatKey, rest: Bytes)
    ensures ParseKey(PrintKey(key, rest)) == Some((key, rest))
  {
    var r5 := rest;
    var r4 := Field(PrintStamp(key.ctime), r5);
    var r3 := Field(PrintStamp(key.mtime), r4);
    var r2 := Field(Decimal(key.size), r3);
    var r1 := Field(Decimal(key.ino), r2);
    TakeFieldU64(key.dev, r1);
    TakeFieldU64(key.ino, r2);
    TakeFieldU64(key.size, r3);
    TakeFieldStamp(key.mtime, r4);
    TakeFieldStamp(key.ctime, r5);
  }

  predicate NumberByte(c: char) { IsDigit(c) || c in {' ', '-', '.'} }

  lemma FieldBytes(text: Bytes, rest: Bytes)
    requires forall c | c in text :: NumberByte(c)
    ensures forall c | c in Field(text, rest) :: NumberByte(c) || c in rest
  {}

  /** A printed identity is digits, signs, dots and spaces. */
  lemma PrintedKeyBytes(key: StatKey, rest: Bytes)
    ensures forall c | c in PrintKey(key, rest) :: NumberByte(c) || c in rest
  {
    var r4 := Field(PrintStamp(key.ctime), rest);
    var r3 := Field(PrintStamp(key.mtime), r4);
    var r2 := Field(Decimal(key.size), r3);
    var r1 := Field(Decimal(key.ino), r2);
    FieldBytes(PrintStamp(key.ctime), rest);
    FieldBytes(PrintStamp(key.mtime), r4);
    FieldBytes(Decimal(key.size), r3);
    FieldBytes(Decimal(key.ino), r2);
    FieldBytes(Decimal(key.dev), r1);
  }
}
