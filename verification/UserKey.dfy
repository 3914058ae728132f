/** The textual user key `tag|email|uid`, its parsers, and the key that is shared between processes. */
module UserKey {
  import opened Api

  /******* Decimal numbers *******/

  predicate IsDigit(c: char) {
    '0' <= c <= '9'
  }

  predicate AllDigits(s: string) {
    forall i :: 0 <= i < |s| ==> IsDigit(s[i])
  }

  function PrintNat(n: nat): (s: string)
    ensures |s| > 0 && AllDigits(s)
  {
    var last := [(n % 10) as char + '0'];
    if n < 10 then last else PrintNat(n / 10) + last
  }

  /** `strconv.Itoa` and `strconv.AppendInt` in base ten. */
  function Itoa(i: int): (s: string)
    ensures |s| > 0 && '|' !in s
  {
    if i < 0 then "-" + PrintNat(-i) else PrintNat(i)
  }

  function ParseNat(s: string): (n: nat)
    requires AllDigits(s)
  {
    if s == [] then 0 else ParseNat(s[..|s| - 1]) * 10 + (s[|s| - 1] - '0') as nat
  }

  /** `strconv.Atoi`: an optional sign, at least one digit, and a value that fits a 64-bit integer. */
  function Atoi(s: string): (r: Option<int64>) {
    var digits := if |s| > 0 && (s[0] == '-' || s[0] == '+') then s[1..] else s;
    if digits == [] || !AllDigits(digits) then
      None
    else
      var n := ParseNat(digits);
      var v: int := if s[0] == '-' then -(n as int) else n;
      if -0x8000_0000_0000_0000 <= v < 0x8000_0000_0000_0000 then Some(v) else None
  }

  lemma {:induction false} ParsePrint(n: nat)
    ensures ParseNat(PrintNat(n)) == n
  {
    var s := PrintNat(n);
    if n >= 10 {
      ParsePrint(n / 10);
      assert s[..|s| - 1] == PrintNat(n / 10);
    } else {
      assert s[..|s| - 1] == [];
    }
  }

  /** Parsing undoes printing for every 64-bit integer. */
  lemma AtoiItoa(i: int64)
    ensures Atoi(Itoa(i)) == Some(i)
  {
    var size: nat := if i < 0 then -(i as int) else i;
    var digits := PrintNat(size);
    ParsePrint(size);
    if i < 0 {
      assert Itoa(i)[1..] == digits;
    } else {
      assert IsDigit(digits[0]);
    }
  }

  lemma ItoaInjective(i: int, j: int)
    requires Itoa(i) == Itoa(j)
    ensures i == j
  {
    var a, b := if i < 0 then -i else i, if j < 0 then -j else j;
    ParsePrint(a);
    ParsePrint(b);
    assert IsDigit(PrintNat(a)[0]) && IsDigit(PrintNat(b)[0]);
    if i < 0 {
      assert Itoa(i)[1..] == PrintNat(a) && Itoa(j)[1..] == PrintNat(b);
    }
  }

  /******* Keys *******/

  /** The key a user carries on the data path. */
  function FormatUserKey(tag: string, email: string, uid: int): (key: string) {
    tag + "|" + email + "|" + Itoa(uid)
  }

  /** `strings.LastIndexByte`, -1 when the byte is absent. */
  function LastIndex(s: string, c: char): (i: int)
    ensures -1 <= i < |s|
    ensures i >= 0 ==> s[i] == c
    ensures forall j :: i < j < |s| ==> s[j] != c
  {
    if s == [] then -1
    else if s[|s| - 1] == c then |s| - 1
    else LastIndex(s[..|s| - 1], c)
  }

  /** Index of the first occurrence, or the length when the byte is absent. */
  function FirstIndex(s: string, c: char): (i: nat)
    ensures i <= |s|
    ensures i < |s| ==> s[i] == c
    ensures forall j :: 0 <= j < i ==> s[j] != c
  {
    if s == [] || s[0] == c then 0 else 1 + FirstIndex(s[1..], c)
  }

  /** The tag a key belongs to: everything before its first separator. */
  function TagOf(key: string): string {
    key[..FirstIndex(key, '|')]
  }

  /** The UID of a key as the rule manager recovers it. */
  function UidOf(key: string): Option<int64> {
    var separator := LastIndex(key, '|');
    if separator < 0 || separator == |key| - 1 then None else Atoi(key[separator + 1..])
  }

  /** Whatever separators the email holds, the UID read back from a key is the one printed into it. */
  lemma UidOfKey(tag: string, email: string, uid: int64)
    ensures UidOf(FormatUserKey(tag, email, uid)) == Some(uid)
  {
    var key := FormatUserKey(tag, email, uid);
    var at := |tag| + 1 + |email|;
    assert key[at] == '|';
    forall j | at < j < |key|
      ensures key[j] != '|'
    {
      assert key[j] == Itoa(uid)[j - at - 1];
    }
    assert LastIndex(key, '|') == at;
    assert key[at + 1..] == Itoa(uid);
    AtoiItoa(uid);
  }

  /** Only an optional sign and digits are a number. */
  lemma AtoiAccepts(s: string)
    ensures Atoi(s).Some? ==>
      exists digits :: digits != [] && AllDigits(digits) && (s == digits || s == "-" + digits || s == "+" + digits)
  {
    if Atoi(s).Some? {
      var digits := if |s| > 0 && (s[0] == '-' || s[0] == '+') then s[1..] else s;
      assert s == digits || s == "-" + digits || s == "+" + digits;
    }
  }

  /** What a key's UID is, for any text: the number after the last separator, and none without one. */
  lemma UidOfAny(prefix: string, rest: string)
    requires '|' !in rest
    ensures UidOf(rest).None?
    ensures UidOf(prefix + "|" + rest) == if rest == [] then None else Atoi(rest)
  {
    var key := prefix + "|" + rest;
    assert key[|prefix|] == '|';
    forall j | |prefix| < j < |key| ensures key[j] != '|' {
      assert key[j] == rest[j - |prefix| - 1];
    }
    assert LastIndex(key, '|') == |prefix|;
    assert key[|prefix| + 1..] == rest;
    assert LastIndex(rest, '|') == -1;
  }

  /** A key gives back its tag exactly when the tag holds no separator. */
  lemma TagOfKey(tag: string, email: string, uid: int)
    ensures TagOf(FormatUserKey(tag, email, uid)) == tag <==> '|' !in tag
  {
    var key := FormatUserKey(tag, email, uid);
    assert key[|tag|] == '|';
    assert forall j :: 0 <= j < |tag| ==> key[j] == tag[j];
    var first := FirstIndex(key, '|');
    if '|' !in tag {
      assert first == |tag|;
      assert key[..first] == tag;
    }
  }

  lemma SplitAtLast(a: string, x: string, b: string, y: string)
    requires a + "|" + x == b + "|" + y
    requires '|' !in x && '|' !in y
    ensures a == b && x == y
  {
    var s := a + "|" + x;
    assert s[|a|] == '|' && s[|b|] == '|';
    assert forall j :: |a| < j < |s| ==> s[j] == x[j - |a| - 1];
    assert forall j :: |b| < j < |s| ==> s[j] == y[j - |b| - 1];
    assert |a| == |b|;
    assert s[..|a|] == a && s[..|b|] == b;
    assert s[|a| + 1..] == x && s[|b| + 1..] == y;
  }

  lemma SplitAtFirst(a: string, x: string, b: string, y: string)
    requires a + "|" + x == b + "|" + y
    requires '|' !in a && '|' !in b
    ensures a == b && x == y
  {
    var s := a + "|" + x;
    assert s[|a|] == '|' && s[|b|] == '|';
    assert forall j :: 0 <= j < |a| ==> s[j] == a[j];
    assert forall j :: 0 <= j < |b| ==> s[j] == b[j];
    assert |a| == |b|;
    assert s[..|a|] == a && s[..|b|] == b;
    assert s[|a| + 1..] == x && s[|b| + 1..] == y;
  }

  /** Under one tag, two users share a key only if they agree on email and UID. */
  lemma KeyInjective(tag: string, email: string, uid: int, email': string, uid': int)
    requires FormatUserKey(tag, email, uid) == FormatUserKey(tag, email', uid')
    ensures email == email' && uid == uid'
  {
    SplitAtLast(tag + "|" + email, Itoa(uid), tag + "|" + email', Itoa(uid'));
    assert (tag + "|" + email)[|tag| + 1..] == email;
    assert (tag + "|" + email')[|tag| + 1..] == email';
    ItoaInjective(uid, uid');
  }

  /******* The cross-process key *******/

  /** `strings.Replace(s, old, new, 1)`. */
  function ReplaceFirst(s: string, old_: string, new_: string): string {
    if old_ <= s then new_ + s[|old_|..]
    else if s == [] then []
    else [s[0]] + ReplaceFirst(s[1..], old_, new_)
  }

  /** The key under which all processes reserve addresses: the tag gives way to the device limit. */
  function GlobalKey(key: string, tag: string, limit: int): string {
    ReplaceFirst(key, tag, Itoa(limit))
  }

  /** Two reservations meet under one shared key exactly when limit, email and UID agree, whatever their nodes. */
  lemma GlobalKeyDetermines(tag: string, email: string, uid: int, limit: int,
                            tag': string, email': string, uid': int, limit': int)
    ensures GlobalKey(FormatUserKey(tag, email, uid), tag, limit)
            == GlobalKey(FormatUserKey(tag', email', uid'), tag', limit')
       <==> limit == limit' && email == email' && uid == uid'
  {
    GlobalKeyShape(tag, email, uid, limit);
    GlobalKeyShape(tag', email', uid', limit');
    var key, key' := FormatUserKey(tag, email, uid), FormatUserKey(tag', email', uid');
    if GlobalKey(key, tag, limit) == GlobalKey(key', tag', limit') {
      SplitAtFirst(Itoa(limit), email + "|" + Itoa(uid), Itoa(limit'), email' + "|" + Itoa(uid'));
      SplitAtLast(email, Itoa(uid), email', Itoa(uid'));
      ItoaInjective(limit, limit');
      ItoaInjective(uid, uid');
    }
  }

  lemma GlobalKeyShape(tag: string, email: string, uid: int, limit: int)
    ensures GlobalKey(FormatUserKey(tag, email, uid), tag, limit) == Itoa(limit) + "|" + (email + "|" + Itoa(uid))
  {
    hide Itoa;
    var key := FormatUserKey(tag, email, uid);
    var rest := "|" + (email + "|" + Itoa(uid));
    assert key == tag + rest;
    assert tag <= key && key[|tag|..] == rest;
    assert Itoa(limit) + rest == Itoa(limit) + "|" + (email + "|" + Itoa(uid));
  }
}
