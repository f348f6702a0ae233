/** The name multer gives an uploaded image (backend/routes/productRoutes.js:12): the upload
    time in milliseconds written in decimal, a '-', then the file's original name. The clock
    is a parameter. */
module Upload {
  import opened Common

  predicate IsDigit(c: char) {
    '0' <= c <= '9'
  }

  predicate AllDigits(s: string) {
    forall i :: 0 <= i < |s| ==> IsDigit(s[i])
  }

  function Digit(d: nat): (c: char)
    requires d < 10
    ensures IsDigit(c) && c as int - '0' as int == d
  {
    "0123456789"[d]
  }

  /** A non-negative integer in decimal as JavaScript converts it to a string: digits only, no
      leading zero. */
  function Decimal(n: nat): (s: string)
    ensures |s| >= 1 && AllDigits(s)
    ensures |s| > 1 ==> s[0] != '0'
  {
    if n < 10 then [Digit(n)] else Decimal(n / 10) + [Digit(n % 10)]
  }

  /** The number a string of decimal digits denotes. */
  function DigitsValue(s: string): nat
    requires AllDigits(s)
  {
    if |s| == 0 then 0 else DigitsValue(s[..|s| - 1]) * 10 + (s[|s| - 1] as int - '0' as int)
  }

  /** Reading back the decimal form of `n` gives `n`. */
  lemma {:induction false} DecimalValue(n: nat)
    ensures DigitsValue(Decimal(n)) == n
  {
    if n >= 10 {
      var s := Decimal(n);
      assert s[..|s| - 1] == Decimal(n / 10);
      DecimalValue(n / 10);
    }
  }

  /** The stored file name of an upload made at time `now`. */
  function UploadName(now: nat, original: string): string {
    Decimal(now) + "-" + original
  }

  /** The path multer reports for the upload: the name inside the `uploads/` directory. */
  function UploadPath(now: nat, original: string): (path: string)
    ensures |path| > 8 && path[..8] == "uploads/"
    ensures ParseUploadName(path[8..]) == Some((now, original))
  {
    UploadNameRoundTrip(now, original);
    var path := "uploads/" + UploadName(now, original);
    assert path[8..] == UploadName(now, original);
    path
  }

  /** The position of the first `c` in `s`. */
  function IndexOf(s: string, c: char): (r: Option<nat>)
    ensures r.Some? ==> r.value < |s| && s[r.value] == c && c !in s[..r.value]
    ensures r.None? ==> c !in s
  {
    if |s| == 0 then None
    else if s[0] == c then Some(0)
    else
      match IndexOf(s[1..], c)
      case None => None
      case Some(i) =>
        assert s[..i + 1] == [s[0]] + s[1..][..i];
        Some(i + 1)
  }

  /** Splits a stored upload name back into its time and original name: the digits before
      the first '-' and everything after it. */
  function ParseUploadName(s: string): Option<(nat, string)> {
    match IndexOf(s, '-')
    case None => None
    case Some(i) =>
      if 1 <= i && AllDigits(s[..i]) && (i == 1 || s[0] != '0') then Some((DigitsValue(s[..i]), s[i + 1..]))
      else None
  }

  /** The first `c` in `a + [c] + b` is the one after `a` when `a` has none. */
  lemma {:induction false} IndexAfterPrefix(a: string, c: char, b: string)
    requires c !in a
    ensures IndexOf(a + [c] + b, c) == Some(|a|)
  {
    if |a| > 0 {
      assert (a + [c] + b)[1..] == a[1..] + [c] + b;
      IndexAfterPrefix(a[1..], c, b);
    }
  }

  /** The stored name determines the upload time and the original name. */
  lemma UploadNameRoundTrip(now: nat, original: string)
    ensures ParseUploadName(UploadName(now, original)) == Some((now, original))
  {
    var d := Decimal(now);
    var s := UploadName(now, original);
    assert '-' !in d;
    IndexAfterPrefix(d, '-', original);
    assert s[..|d|] == d;
    assert s[|d| + 1..] == original;
    DecimalValue(now);
  }

  /** Two uploads get the same stored name exactly when they share the millisecond and the
      original name; such uploads overwrite each other. */
  lemma UploadNamesCollide(t1: nat, o1: string, t2: nat, o2: string)
    ensures UploadPath(t1, o1) == UploadPath(t2, o2) <==> t1 == t2 && o1 == o2
  {
    if UploadPath(t1, o1) == UploadPath(t2, o2) {
      var prefix := "uploads/";
      assert UploadName(t1, o1) == UploadPath(t1, o1)[|prefix|..];
      assert UploadName(t2, o2) == UploadPath(t2, o2)[|prefix|..];
      UploadNameRoundTrip(t1, o1);
      UploadNameRoundTrip(t2, o2);
    }
  }
}
