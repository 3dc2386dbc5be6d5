/** The image record as the table code holds it: a mutable value whose
    creation and modification times are converted from microseconds to
    seconds in place before being rendered as a date. */
module ImageStructs {
  import opened Base
  import opened Records

  const MICROS_PER_SECOND: int := 1_000_000

  function Abs(x: int): nat {
    if x < 0 then -x else x
  }

  lemma MulCancelLt(d: int, x: int, y: int)
    requires d > 0 && d * x < d * y
    ensures x < y
  {
  }

  /** Euclidean division is determined by quotient and remainder. */
  lemma DivUnique(a: int, d: int, q: int, r: int)
    requires d > 0 && a == d * q + r && 0 <= r < d
    ensures a / d == q
  {
    var q', r' := a / d, a % d;
    assert a == d * q' + r' && 0 <= r' < d;
    assert d * (q' - q) == r - r';
    MulCancelLt(d, q' - q, 1);
    MulCancelLt(d, -1, q' - q);
  }

  /** Rust's integer `/` for a positive divisor: the quotient is truncated
      toward zero, so its magnitude is the floor of |a| / b and its sign is
      that of `a`. */
  function TruncDiv(a: int, b: int): (q: int)
    requires b > 0
    ensures Abs(q) * b <= Abs(a) < (Abs(q) + 1) * b
    ensures Abs(q) <= Abs(a)
    ensures a >= 0 ==> q >= 0
    ensures a <= 0 ==> q <= 0
  {
    var m := Abs(a) / b;
    DivBounds(Abs(a), b);
    if a >= 0 then m else -m
  }

  /** The floor quotient of a natural number by a positive divisor. */
  lemma DivBounds(n: nat, b: int)
    requires b > 0
    ensures (n / b) * b <= n < (n / b + 1) * b
    ensures 0 <= n / b <= n
  {
    var m, r := n / b, n % b;
    assert n == b * m + r && 0 <= r < b;
    assert (m + 1) * b == m * b + b;
    MulAtLeast(m, b);
  }

  lemma MulAtLeast(m: nat, b: int)
    requires b >= 1
    ensures m <= m * b
  {
  }

  /** Microseconds to seconds, as `self.created /= 1_000_000` does. */
  function Seconds(micros: int): (secs: int)
    ensures Abs(secs) <= Abs(micros)
  {
    TruncDiv(micros, MICROS_PER_SECOND)
  }

  /** The rendering of a converted time: `"-"` for zero, otherwise the date
      the (opaque) formatter gives for that many seconds since the epoch. */
  function Stamp(secs: int, formatDate: int -> string): string {
    if secs == 0 then "-" else formatDate(secs)
  }

  /** The converted time is zero exactly for inputs under one second in
      magnitude. */
  lemma SecondsZeroIff(micros: int)
    ensures Seconds(micros) == 0 <==> -MICROS_PER_SECOND < micros < MICROS_PER_SECOND
  {
    var q := Seconds(micros);
    if q != 0 {
      assert Abs(q) >= 1;
      assert Abs(q) * MICROS_PER_SECOND >= MICROS_PER_SECOND;
    }
  }

  /** A time renders as `"-"` exactly when it is under one second in
      magnitude (the date formatter never yields `"-"`). */
  lemma StampDashIff(micros: int, formatDate: int -> string)
    requires formatDate(Seconds(micros)) != "-"
    ensures Stamp(Seconds(micros), formatDate) == "-" <==> -MICROS_PER_SECOND < micros < MICROS_PER_SECOND
  {
    SecondsZeroIff(micros);
  }

  /** Converting twice divides by 10^12: the conversion works on the stored
      field, so a second call on the same record changes it again. */
  lemma {:induction false} SecondsTwice(micros: int)
    ensures Seconds(Seconds(micros)) == TruncDiv(micros, MICROS_PER_SECOND * MICROS_PER_SECOND)
  {
    var b := MICROS_PER_SECOND;
    var a := Abs(micros);
    var q1 := a / b;
    var q2 := q1 / b;
    assert a == b * q1 + a % b;
    assert q1 == b * q2 + q1 % b;
    assert a == (b * b) * q2 + (b * (q1 % b) + a % b) by {
      calc {
        a;
        b * q1 + a % b;
        b * (b * q2 + q1 % b) + a % b;
        (b * b) * q2 + (b * (q1 % b) + a % b);
      }
    }
    assert b * (q1 % b) <= b * (b - 1);
    DivUnique(a, b * b, q2, b * (q1 % b) + a % b);
  }

  /** A nonzero converted time is changed by a second conversion: the
      conversion is not idempotent. */
  lemma SecondsNotIdempotent(micros: int)
    requires Seconds(micros) != 0
    ensures Seconds(Seconds(micros)) != Seconds(micros)
  {
    var q := Seconds(micros);
    var q2 := Seconds(q);
    assert Abs(q2) * MICROS_PER_SECOND <= Abs(q);
    assert Abs(q2) < Abs(q) by {
      assert Abs(q2) == 0 || Abs(q2) * MICROS_PER_SECOND >= Abs(q2) * 2;
    }
  }

  /** The image as `create_images_table` holds it (`for mut image in images`). */
  class Image {
    var name: string
    var typeField: string
    var ro: bool
    var usage: Option<string>
    var created: i64
    var modified: i64

    constructor (d: ImageData)
      ensures Data() == d
    {
      name, typeField, ro, usage := d.name, d.typeField, d.ro, d.usage;
      created, modified := d.created, d.modified;
    }

    /** The record's current value. */
    function Data(): ImageData
      reads this
    {
      ImageData(name, typeField, ro, usage, created, modified)
    }

    /** `created_to_timestamp`: stores the creation time in seconds and
        renders it; no other field changes. */
    method CreatedToTimestamp(formatDate: int -> string) returns (stamp: string)
      modifies this`created
      ensures created == Seconds(old(created))
      ensures stamp == Stamp(created, formatDate)
      ensures Data() == old(Data()).(created := created)
    {
      created := Seconds(created);
      if created == 0 {
        stamp := "-";
      } else {
        stamp := formatDate(created);
      }
    }

    /** `modified_to_timestamp`: the same conversion on the modification
        time alone. */
    method ModifiedToTimestamp(formatDate: int -> string) returns (stamp: string)
      modifies this`modified
      ensures modified == Seconds(old(modified))
      ensures stamp == Stamp(modified, formatDate)
      ensures Data() == old(Data()).(modified := modified)
    {
      modified := Seconds(modified);
      if modified == 0 {
        stamp := "-";
      } else {
        stamp := formatDate(modified);
      }
    }
  }
}
