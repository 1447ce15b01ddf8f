/**
  Key names in the cache store. A pending view counter lives under
  `productView::<productId>` and a category's ranking board under
  `Ranking::<categoryId>`; the reconciliation pass finds counters with the
  glob `productView*` and reads the product id back out of the key with
  `key.split("::")[1]`.
 */
module Keys {
  import opened Options
  import opened Decimal

  /** The literal part of the scan glob `productView*`. */
  const ViewPattern: string := "productView"
  const Separator: string := "::"
  const RankingPrefix: string := "Ranking::"

  function ViewKey(productId: int): string {
    ViewPattern + Separator + Show(productId)
  }

  function RankingKey(categoryId: int): string {
    RankingPrefix + Show(categoryId)
  }

  /** Whether `productView*` matches the key: `*` matches any rest. */
  predicate MatchesViewPattern(key: string) {
    ViewPattern <= key
  }

  /** A separator "::" starts at index `i` of `s`. */
  predicate SeparatorAt(s: string, i: int) {
    0 <= i && i + 1 < |s| && s[i] == ':' && s[i + 1] == ':'
  }

  /** The leftmost separator, as a regular-expression split finds it. */
  function FindSeparator(s: string): (r: Option<nat>)
    ensures r.Some? ==> SeparatorAt(s, r.value)
    ensures r.Some? ==> forall j | 0 <= j < r.value :: !SeparatorAt(s, j)
    ensures r.None? ==> forall j :: !SeparatorAt(s, j)
    decreases |s|
  {
    if |s| < 2 then None
    else if SeparatorAt(s, 0) then Some(0)
    else
      assert forall j | 1 <= j :: SeparatorAt(s, j) == SeparatorAt(s[1..], j - 1);
      match FindSeparator(s[1..])
      case None => None
      case Some(i) => Some(i + 1)
  }

  /**
    Element 1 of `key.split("::")`: the text between the first separator
    and the next one, or the end. Java drops trailing empty fields, so when
    this field and all after it are empty the element does not exist; the
    model returns "" there, which no parser accepts either.
   */
  function SecondField(key: string): (r: Option<string>)
    ensures r.None? <==> FindSeparator(key).None?
  {
    match FindSeparator(key)
    case None => None
    case Some(i) =>
      var rest := key[i + 2..];
      match FindSeparator(rest)
      case None => Some(rest)
      case Some(j) => Some(rest[..j])
  }

  /** `Long.parseLong(key.split("::")[1])`; None wherever Java throws. */
  function ParseViewKey(key: string): (r: Option<int>)
    ensures r.Some? ==> LongMin <= r.value <= LongMax
  {
    match SecondField(key)
    case None => None
    case Some(field) => ParseLong(field)
  }

  lemma NoSeparatorInShow(n: int)
    ensures FindSeparator(Show(n)) == None
  {
    var s := Show(n);
    if n < 0 {
      assert forall i | 1 <= i < |s| :: s[i] == Digits(-n)[i - 1];
    }
    assert forall i | 0 <= i < |s| :: s[i] != ':';
  }

  /** Every counter key the application writes matches the scan's glob. */
  lemma ViewKeyScanned(productId: int)
    ensures MatchesViewPattern(ViewKey(productId))
  {
    assert ViewKey(productId)[..|ViewPattern|] == ViewPattern;
  }

  /** Every counter key the application writes is found by the scan and yields its id back. */
  lemma ViewKeyRoundTrip(productId: int)
    requires LongMin <= productId <= LongMax
    ensures MatchesViewPattern(ViewKey(productId))
    ensures ParseViewKey(ViewKey(productId)) == Some(productId)
  {
    var key := ViewKey(productId);
    var n := |ViewPattern|;
    assert key[..n] == ViewPattern;
    assert SeparatorAt(key, n);
    assert forall j | 0 <= j < n :: key[j] == ViewPattern[j];
    var i := FindSeparator(key).value;
    assert i == n;
    assert key[i + 2..] == Show(productId);
    NoSeparatorInShow(productId);
    ShowParseJava(productId, LongMin, LongMax);
  }

  /** Ranking boards are never swept up by the counter scan. */
  lemma RankingKeyNotScanned(categoryId: int)
    ensures !MatchesViewPattern(RankingKey(categoryId))
  {
    assert RankingKey(categoryId)[0] == 'R';
  }
}
