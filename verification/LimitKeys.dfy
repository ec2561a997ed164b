/** Budget windows and the storage keys of their counters. Times are in nanoseconds since the epoch, UTC. */
module LimitKeys {

  datatype Window = Minute | Day | Month

  const SECOND: int := 1_000_000_000
  const MINUTE: int := 60 * SECOND
  const DAY: int := 24 * 60 * MINUTE

  function Duration(w: Window): int {
    match w
    case Minute => MINUTE
    case Day => DAY
    case Month => 30 * DAY
  }

  function WindowName(w: Window): string {
    match w
    case Minute => "minute"
    case Day => "day"
    case Month => "month"
  }

  datatype DimensionKeys = DimensionKeys(identity: string, team: string, route: string, model: string)

  function Sanitize(part: string): string {
    if part == "" then "*" else part
  }

  /** The storage key; `bucket` is the formatted bucket time. */
  function BuildKey(d: DimensionKeys, prefix: string, w: Window, bucket: string): string {
    "limits" + (":" + (prefix + (":" + (Sanitize(d.team) + (":" + (Sanitize(d.identity) + (":" + (Sanitize(d.route) + (":"
    + (Sanitize(d.model) + (":" + (WindowName(w) + (":" + bucket)))))))))))))
  }

  function RateLimitKey(d: DimensionKeys): string {
    "limits:rps" + (":" + (Sanitize(d.team) + (":" + (Sanitize(d.identity) + (":" + Sanitize(d.route))))))
  }

  predicate Plain(part: string) {
    ':' !in part
  }

  predicate PlainKeys(d: DimensionKeys) {
    Plain(d.identity) && Plain(d.team) && Plain(d.route) && Plain(d.model)
  }

  /** The same part as far as a key can tell: "" and "*" are one. */
  predicate SamePart(a: string, b: string) {
    a == b || (a in {"", "*"} && b in {"", "*"})
  }

  /** A plain part in front of a colon can be read back. */
  lemma {:induction false} SplitAtColon(a: string, x: string, b: string, y: string)
    requires Plain(a) && Plain(b)
    requires a + (":" + x) == b + (":" + y)
    ensures a == b && x == y
  {
    var s, t := a + (":" + x), b + (":" + y);
    assert s[|a|] == ':' && t[|b|] == ':';
    assert forall i | 0 <= i < |a| :: s[i] == a[i] && s[i] in a;
    assert forall i | 0 <= i < |b| :: t[i] == b[i] && t[i] in b;
    assert a == s[..|a|] && b == t[..|b|];
    assert x == s[|a| + 1..] && y == t[|b| + 1..];
  }

  lemma SanitizeSame(a: string, b: string)
    ensures Sanitize(a) == Sanitize(b) <==> SamePart(a, b)
    ensures Plain(a) <==> Plain(Sanitize(a))
  {
  }

  /** Keys built from colon-free parts coincide exactly when every part, the window and the
      bucket coincide, "" and "*" being the same part. */
  lemma BuildKeyInjective(d: DimensionKeys, p: string, w: Window, bucket: string,
                          d': DimensionKeys, p': string, w': Window, bucket': string)
    requires PlainKeys(d) && PlainKeys(d') && Plain(p) && Plain(p')
    ensures BuildKey(d, p, w, bucket) == BuildKey(d', p', w', bucket')
            <==> && p == p' && w == w' && bucket == bucket'
                 && SamePart(d.team, d'.team) && SamePart(d.identity, d'.identity)
                 && SamePart(d.route, d'.route) && SamePart(d.model, d'.model)
  {
    SanitizeSame(d.team, d'.team);
    SanitizeSame(d.identity, d'.identity);
    SanitizeSame(d.route, d'.route);
    SanitizeSame(d.model, d'.model);
    if BuildKey(d, p, w, bucket) == BuildKey(d', p', w', bucket') {
      KeyPartsAgree(d, p, w, bucket, d', p', w', bucket');
    }
  }

  lemma KeyPartsAgree(d: DimensionKeys, p: string, w: Window, bucket: string,
                      d': DimensionKeys, p': string, w': Window, bucket': string)
    requires PlainKeys(d) && PlainKeys(d') && Plain(p) && Plain(p')
    requires BuildKey(d, p, w, bucket) == BuildKey(d', p', w', bucket')
    ensures p == p' && w == w' && bucket == bucket'
    ensures Sanitize(d.team) == Sanitize(d'.team) && Sanitize(d.identity) == Sanitize(d'.identity)
    ensures Sanitize(d.route) == Sanitize(d'.route) && Sanitize(d.model) == Sanitize(d'.model)
  {
    var (x, x') := (WindowName(w) + (":" + bucket), WindowName(w') + (":" + bucket'));
    var (m, m') := (Sanitize(d.model) + (":" + x), Sanitize(d'.model) + (":" + x'));
    var (r, r') := (Sanitize(d.route) + (":" + m), Sanitize(d'.route) + (":" + m'));
    var (i, i') := (Sanitize(d.identity) + (":" + r), Sanitize(d'.identity) + (":" + r'));
    var (t, t') := (Sanitize(d.team) + (":" + i), Sanitize(d'.team) + (":" + i'));
    SplitAtColon("limits", p + (":" + t), "limits", p' + (":" + t'));
    SplitAtColon(p, t, p', t');
    SplitAtColon(Sanitize(d.team), i, Sanitize(d'.team), i');
    SplitAtColon(Sanitize(d.identity), r, Sanitize(d'.identity), r');
    SplitAtColon(Sanitize(d.route), m, Sanitize(d'.route), m');
    SplitAtColon(Sanitize(d.model), x, Sanitize(d'.model), x');
    SplitAtColon(WindowName(w), bucket, WindowName(w'), bucket');
  }

  /** Rate-limit keys of colon-free parts likewise; the model does not take part. */
  lemma RateKeyInjective(d: DimensionKeys, d': DimensionKeys)
    requires PlainKeys(d) && PlainKeys(d')
    ensures RateLimitKey(d) == RateLimitKey(d')
            <==> SamePart(d.team, d'.team) && SamePart(d.identity, d'.identity) && SamePart(d.route, d'.route)
  {
    SanitizeSame(d.team, d'.team);
    SanitizeSame(d.identity, d'.identity);
    SanitizeSame(d.route, d'.route);
    if RateLimitKey(d) == RateLimitKey(d') {
      var (i, i') := (Sanitize(d.identity) + (":" + Sanitize(d.route)), Sanitize(d'.identity) + (":" + Sanitize(d'.route)));
      var (t, t') := (Sanitize(d.team) + (":" + i), Sanitize(d'.team) + (":" + i'));
      var (h, h') := ("limits:rps" + (":" + t), "limits:rps" + (":" + t'));
      assert h[11..] == t && h'[11..] == t';
      SplitAtColon(Sanitize(d.team), i, Sanitize(d'.team), i');
      SplitAtColon(Sanitize(d.identity), Sanitize(d.route), Sanitize(d'.identity), Sanitize(d'.route));
    }
  }

  /** A colon can move between neighbouring parts, so colon-free parts are needed. */
  lemma ColonCollision(a: string, b: string, c: string, route: string, model: string, p: string, w: Window,
      bucket: string)
    requires a != "" && b != "" && c != ""
    ensures BuildKey(DimensionKeys(c, a + ":" + b, route, model), p, w, bucket)
            == BuildKey(DimensionKeys(b + ":" + c, a, route, model), p, w, bucket)
  {
    var rest := ":" + (Sanitize(route) + (":" + (Sanitize(model) + (":" + (WindowName(w) + (":" + bucket))))));
    MovedColon(a, b, c, rest);
  }

  lemma MovedColon(a: string, b: string, c: string, rest: string)
    ensures (a + ":" + b) + (":" + (c + rest)) == a + (":" + ((b + ":" + c) + rest))
  {
  }

  ghost predicate Over(part: string, alphabet: set<char>) {
    forall c | c in part :: c in alphabet
  }

  ghost predicate KeysOver(d: DimensionKeys, alphabet: set<char>) {
    Over(d.identity, alphabet) && Over(d.team, alphabet) && Over(d.route, alphabet) && Over(d.model, alphabet)
  }

  ghost predicate SameKeys(d: DimensionKeys, d': DimensionKeys) {
    && SamePart(d.team, d'.team) && SamePart(d.identity, d'.identity)
    && SamePart(d.route, d'.route) && SamePart(d.model, d'.model)
  }

  /** Different callers, windows and buckets never share a key. */
  ghost predicate TellsApart(alphabet: set<char>, p: string) {
    forall d, w, b, d', w', b' |
      KeysOver(d, alphabet) && KeysOver(d', alphabet) && BuildKey(d, p, w, b) == BuildKey(d', p, w', b') ::
      w == w' && b == b' && SameKeys(d, d')
  }

  /** Keys of parts over an alphabet tell their parts apart exactly when it has no colon. */
  lemma TellsApartIff(alphabet: set<char>, p: string)
    requires Plain(p)
    ensures TellsApart(alphabet, p) <==> ':' !in alphabet
  {
    if ':' in alphabet {
      var d, d' := DimensionKeys(":", ":" + ":" + ":", "", ""), DimensionKeys(":" + ":" + ":", ":", "", "");
      ColonCollision(":", ":", ":", "", "", p, Minute, "");
      assert KeysOver(d, alphabet) && KeysOver(d', alphabet);
      assert |d.team| != |d'.team| && !SameKeys(d, d');
    } else {
      forall d, w, b, d', w', b' |
        KeysOver(d, alphabet) && KeysOver(d', alphabet) && BuildKey(d, p, w, b) == BuildKey(d', p, w', b')
        ensures w == w' && b == b' && SameKeys(d, d')
      {
        BuildKeyInjective(d, p, w, b, d', p, w', b');
      }
    }
  }

  // ---------------------------------------------------------------- bucket and expiry

  /** A counter created at some time with lifetime d counts as expired from one tick after. */
  predicate Expired(created: int, d: int, now: int) {
    now > created + d
  }

  /** No counter of a bucket [start, start + length) expires while the bucket is current, whenever
      in the bucket it was created, exactly when the bucket is no longer than the lifetime allows. */
  lemma NeverExpiresInBucketIff(start: int, length: nat, d: nat)
    ensures (forall created, now | start <= created <= now < start + length :: !Expired(created, d, now))
            <==> length <= d + 1
  {
    if length > d + 1 {
      assert Expired(start, d, start + d + 1);
    }
  }

  /** Minute and day buckets are as long as their windows; months of 31 days are not. */
  lemma WindowsAgainstBuckets(start: int)
    ensures forall w, created, now |
              w in {Minute, Day} && start <= created <= now < start + Duration(w) :: !Expired(created, Duration(w), now)
    ensures exists created, now :: start <= created <= now < start + 31 * DAY && Expired(created, Duration(Month), now)
  {
    assert Expired(start, Duration(Month), start + 30 * DAY + 1);
  }

  /** Minutes and days of UTC start at multiples of their length; months follow the calendar. */
  function BucketStart(monthStart: int -> int, w: Window, now: int): int {
    match w
    case Minute => now - now % MINUTE
    case Day => now - now % DAY
    case Month => monthStart(now)
  }

  /** A calendar that never puts the start of the month after the moment it is asked about. */
  ghost predicate Calendar(monthStart: int -> int) {
    forall t :: monthStart(t) <= t
  }

  lemma BucketStarted(monthStart: int -> int, w: Window, now: int)
    requires Calendar(monthStart)
    ensures BucketStart(monthStart, w, now) <= now
    ensures w in {Minute, Day} ==> now < BucketStart(monthStart, w, now) + Duration(w)
  {
  }
}
