/** Decimal keys: the unique activity-order key and the two Redis key families. */
module Keys {

  datatype Option<+T> = None | Some(value: T)

  function Digit(d: nat): char
    requires d < 10
  {
    "0123456789"[d]
  }

  /** The number printed in decimal, as `%d` prints it. */
  function Decimal(n: nat): string {
    if n < 10 then [Digit(n)] else Decimal(n / 10) + [Digit(n % 10)]
  }

  function NewActivityOrderKey(user: nat, activity: nat): Option<string> {
    if user == 0 || activity == 0 then None else Some(Decimal(user) + ":" + Decimal(activity))
  }

  const KEY_PREFIX := "order:activity:"

  function FamilyKey(activity: nat, family: string): string {
    KEY_PREFIX + (Decimal(activity) + ":" + family)
  }

  function StockKey(activity: nat): string {
    FamilyKey(activity, "stock")
  }

  function UsersKey(activity: nat): string {
    FamilyKey(activity, "users")
  }

  /** The two keys of an activity, as the scripts name them. */
  lemma KeyTexts(activity: nat)
    ensures StockKey(activity) == "order:activity:" + (Decimal(activity) + ":stock")
    ensures UsersKey(activity) == "order:activity:" + (Decimal(activity) + ":users")
  {
    hide Decimal;
    assert Decimal(activity) + ":" + "stock" == Decimal(activity) + ":stock";
    assert Decimal(activity) + ":" + "users" == Decimal(activity) + ":users";
  }

  function DigitValue(c: char): nat {
    if '0' <= c <= '9' then c as int - '0' as int else 0
  }

  /** Reads a decimal numeral back. */
  function Value(s: string): nat {
    if s == "" then 0 else 10 * Value(s[..|s| - 1]) + DigitValue(s[|s| - 1])
  }

  lemma DigitRoundTrip(d: nat)
    requires d < 10
    ensures DigitValue(Digit(d)) == d && Digit(d) != ':'
  {
  }

  lemma {:induction false} DecimalRoundTrip(n: nat)
    ensures Value(Decimal(n)) == n
    ensures ':' !in Decimal(n)
  {
    hide Digit, DigitValue;
    DigitRoundTrip(n % 10);
    if n < 10 {
      assert Decimal(n)[..0] == "";
      assert Value("") == 0;
    } else {
      DecimalRoundTrip(n / 10);
      assert Decimal(n)[..|Decimal(n)| - 1] == Decimal(n / 10);
    }
  }

  lemma DecimalInjective(m: nat, n: nat)
    requires Decimal(m) == Decimal(n)
    ensures m == n
  {
    DecimalRoundTrip(m);
    DecimalRoundTrip(n);
  }

  /** Where the first colon stands. */
  function FirstColon(s: string): nat {
    if s == "" || s[0] == ':' then 0 else 1 + FirstColon(s[1..])
  }

  lemma {:induction false} FirstColonAfter(s: string, t: string)
    requires ':' !in s
    ensures FirstColon(s + ":" + t) == |s|
  {
    if s == "" {
    } else {
      assert (s + ":" + t)[1..] == s[1..] + ":" + t;
      FirstColonAfter(s[1..], t);
    }
  }

  /** A text is cut in only one way at its first colon. */
  lemma SplitAtColon(s: string, t: string, s': string, t': string)
    requires ':' !in s && ':' !in s'
    requires s + ":" + t == s' + ":" + t'
    ensures s == s' && t == t'
  {
    FirstColonAfter(s, t);
    FirstColonAfter(s', t');
    var whole := s + ":" + t;
    assert s == whole[..|s|] && s' == whole[..|s'|];
    assert t == whole[|s| + 1..] && t' == whole[|s'| + 1..];
  }

  /** The unique index on the key is an index on the (user, activity) pair. */
  lemma ActivityOrderKeyInjective(u: nat, a: nat, u': nat, a': nat)
    requires NewActivityOrderKey(u, a).Some?
    requires NewActivityOrderKey(u, a) == NewActivityOrderKey(u', a')
    ensures u == u' && a == a'
  {
    DecimalRoundTrip(u);
    DecimalRoundTrip(u');
    SplitAtColon(Decimal(u), Decimal(a), Decimal(u'), Decimal(a'));
    DecimalInjective(u, u');
    DecimalInjective(a, a');
  }

  lemma FamilyKeyInjective(a: nat, f: string, b: nat, g: string)
    requires FamilyKey(a, f) == FamilyKey(b, g)
    ensures a == b && f == g
  {
    DecimalRoundTrip(a);
    DecimalRoundTrip(b);
    assert FamilyKey(a, f)[|KEY_PREFIX|..] == Decimal(a) + ":" + f;
    assert FamilyKey(b, g)[|KEY_PREFIX|..] == Decimal(b) + ":" + g;
    SplitAtColon(Decimal(a), f, Decimal(b), g);
    DecimalInjective(a, b);
  }

  /** Redis keys of different activities, or of different families, never collide. */
  lemma RedisKeysApart(a: nat, b: nat)
    ensures StockKey(a) == StockKey(b) ==> a == b
    ensures UsersKey(a) == UsersKey(b) ==> a == b
    ensures StockKey(a) != UsersKey(b)
  {
    if StockKey(a) == StockKey(b) {
      FamilyKeyInjective(a, "stock", b, "stock");
    }
    if UsersKey(a) == UsersKey(b) {
      FamilyKeyInjective(a, "users", b, "users");
    }
    assert "stock"[0] != "users"[0];
    if StockKey(a) == UsersKey(b) {
      FamilyKeyInjective(a, "stock", b, "users");
    }
  }
}
