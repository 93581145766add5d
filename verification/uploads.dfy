/** The upload naming rule and the `/api/upload` reply (server/index.js). */
module Uploads {
  import opened Values
  import opened JsString

  const UploadPrefix := "/uploads/"
  const NoFile := "No file uploaded"

  /** The position of the last `c` in `s`, or -1. */
  function LastIndexOf(s: string, c: char): (k: int)
    ensures -1 <= k < |s|
    ensures k == -1 <==> c !in s
    ensures 0 <= k ==> s[k] == c && forall j :: k < j < |s| ==> s[j] != c
  {
    if s == [] then -1
    else if s[|s| - 1] == c then |s| - 1
    else
      assert s == s[..|s| - 1] + [s[|s| - 1]];
      LastIndexOf(s[..|s| - 1], c)
  }

  /**
   * Node's `path.extname` on a name without '/': from the last '.' to the end, unless that
   * dot is the first character or the name is "..".
   */
  function Extname(name: string): string {
    var k := LastIndexOf(name, '.');
    if k <= 0 || name == ".." then "" else name[k..]
  }

  /** `path.basename(name, ext)` for `ext == Extname(name)`: the name without its extension. */
  function Stem(name: string): string {
    name[..|name| - |Extname(name)|]
  }

  /**
   * `r` is `head`, a dash, the decimal digits of `now` and `tail`: the text between the dash
   * and `tail` is all digits, reads back as `now`, and has no leading zero unless `now` is 0.
   */
  predicate StampedBetween(r: string, head: string, tail: string, now: nat) {
    && StartsWith(r, head + "-") && EndsWith(r, tail)
    && |head| + 1 < |r| - |tail|
    && (forall i :: |head| + 1 <= i < |r| - |tail| ==> IsDigit(r[i]))
    && DigitsValue(r[|head| + 1..|r| - |tail|]) == now
    && (r[|head| + 1] == '0' ==> now == 0)
  }

  /** The multer filename: `basename + '-' + Date.now() + ext`. */
  function StoredName(original: string, now: nat): (r: string)
    ensures StampedBetween(r, Stem(original), Extname(original), now)
  {
    Stamped(Stem(original), now, Extname(original))
  }

  function Stamped(head: string, now: nat, tail: string): (r: string)
    ensures StampedBetween(r, head, tail, now)
  {
    var digits := Decimal(now);
    var r := head + "-" + digits + tail;
    assert r[|head| + 1..|r| - |tail|] == digits;
    DecimalRoundTrip(now);
    r
  }

  /** POST `/api/upload`: 400 without a file, otherwise the public URL of the stored file. */
  function Upload(stored: Option<string>): (r: Reply<string>)
    ensures stored.None? ==> r == Error(400, NoFile)
    ensures stored.Some? ==>
      r.Ok? && r.status == 200 && StartsWith(r.value, UploadPrefix) && r.value[|UploadPrefix|..] == stored.value
  {
    if stored.None? then Error(400, NoFile) else Ok(200, UploadPrefix + stored.value)
  }

  /** The last-dot position is pinned down by the dot and the dot-free tail after it. */
  lemma LastDotAt(s: string, k: int)
    requires 0 <= k < |s| && s[k] == '.'
    requires forall j :: k < j < |s| ==> s[j] != '.'
    ensures LastIndexOf(s, '.') == k
  {
    assert s[k] in s;
  }

  /** The text a stored name inserts between stem and extension: a dash and the digits. */
  lemma MiddleHasNoDot(now: nat)
    ensures '.' !in ("-" + Decimal(now))
  {
    var digits := Decimal(now);
    var middle := "-" + digits;
    forall i | 0 <= i < |middle| ensures middle[i] != '.' {
      if i > 0 { assert middle[i] == digits[i - 1]; }
    }
  }

  lemma NoDotConcat(a: string, b: string)
    requires '.' !in a && '.' !in b
    ensures '.' !in (a + b)
  {
    forall i | 0 <= i < |a + b| ensures (a + b)[i] != '.' {
      if i >= |a| { assert (a + b)[i] == b[i - |a|]; }
    }
  }

  /** The stored name keeps the original extension (the one exception is the name ".."). */
  lemma StoredNameKeepsExtension(original: string, now: nat)
    requires original != ".."
    ensures Extname(StoredName(original, now)) == Extname(original)
  {
    var ext := Extname(original);
    var middle := "-" + Decimal(now);
    var f := StoredName(original, now);
    MiddleHasNoDot(now);
    var k := LastIndexOf(original, '.');
    if k == -1 {
      assert '.' !in original;
      assert f == original + middle;
      NoDotConcat(original, middle);
      assert LastIndexOf(f, '.') == -1;
    } else if k == 0 {
      assert f == original + middle;
      forall j | 0 < j < |f| ensures f[j] != '.' {
        if j >= |original| { assert f[j] == middle[j - |original|]; }
      }
      LastDotAt(f, 0);
    } else {
      KeepsExtensionAfterDot(original, now, k);
    }
  }

  lemma KeepsExtensionAfterDot(original: string, now: nat, k: int)
    requires original != ".." && k == LastIndexOf(original, '.') && 0 < k
    requires '.' !in ("-" + Decimal(now))
    ensures Extname(StoredName(original, now)) == Extname(original)
  {
    var ext := original[k..];
    assert Extname(original) == ext;
    assert '.' !in ext[1..] by {
      forall i | 0 <= i < |ext| - 1 ensures ext[1..][i] != '.' {
        assert ext[1..][i] == original[k + 1 + i];
      }
    }
    StoredNameShape(original, now);
    ExtnameOfSplit(Stem(original), "-" + Decimal(now), ext);
  }

  /** A stored name is the stem, the dash-led timestamp, and the extension, in that order. */
  lemma StoredNameShape(original: string, now: nat)
    ensures StoredName(original, now) == Stem(original) + ("-" + Decimal(now)) + Extname(original)
  {
    var stem, ext := Stem(original), Extname(original);
    assert StoredName(original, now) == Stamped(stem, now, ext);
    assert stem + "-" + Decimal(now) + ext == stem + ("-" + Decimal(now)) + ext;
  }

  /** A name built as stem, dash-led dot-free middle, and a dot-led extension has that extension. */
  lemma ExtnameOfSplit(a: string, b: string, e: string)
    requires |b| > 0 && b[0] == '-' && '.' !in b
    requires |e| > 0 && e[0] == '.' && '.' !in e[1..]
    ensures Extname(a + b + e) == e
  {
    var f := a + b + e;
    var p := |a| + |b|;
    assert f[p] == '.';
    forall j | p < j < |f| ensures f[j] != '.' {
      assert f[j] == e[1..][j - p - 1];
    }
    LastDotAt(f, p);
    assert f[|a|] == '-';
    assert f[p..] == e;
  }

  /** A name consisting of two dots gains an extension made of the timestamp. */
  lemma DotDotGainsExtension(now: nat)
    ensures Extname(StoredName("..", now)) == ".-" + Decimal(now)
  {
    var f := StoredName("..", now);
    var digits := Decimal(now);
    assert LastIndexOf("..", '.') == 1 by { LastDotAt("..", 1); }
    assert Extname("..") == "";
    assert f == ".." + ("-" + digits);
    MiddleHasNoDot(now);
    forall j | 1 < j < |f| ensures f[j] != '.' {
      assert f[j] == ("-" + digits)[j - 2];
    }
    LastDotAt(f, 1);
    assert f[2] == '-';
    assert f[1..] == ".-" + digits;
  }
}
