/**
 * The public link lifecycle (src/controllers/urlController.js): identifier and
 * secret generation, shortening with the bounded search for an unused id, the
 * redirect resolver, and the public-password path. Each request handler is a
 * method over the collection, proved equal to a function of the old state
 * that states what the handler promises.
 */
module UrlController {
  import opened Wrappers
  import opened JsString
  import opened Rfc4648
  import opened UrlModel

  const ShortIdLength: nat := 6
  const ManagementPasswordLength: nat := 16
  const MaxRetries: nat := 5

  const InvalidUrlMessage := "Invalid URL provided. Please include http:// or https://"
  const CustomIdTooShortMessage := "Custom short ID must be great than 10 characters long."
  const CustomIdInUseMessage := "Custom short ID is already in use."
  const GenerationFailedMessage := "Failed to generate a unique short ID after multiple attempts. Please try again."
  const ShortIdConflictMessage := "A short ID conflict occurred. Please try again or choose a different custom ID."
  const ValidationFailedMessage := "Validation failed"
  const ShortenServerErrorMessage := "Server error during URL shortening."
  const NotFoundMessage := "Short URL not found."
  const ExpiredMessage := "Short URL has expired."
  const RedirectServerErrorMessage := "Server error during redirection."
  const IncorrectPasswordMessage := "Incorrect password."
  const VerifyServerErrorMessage := "Server error during password verification."

  /** What a handler sends back: the status and the fields a client relies on. */
  datatype Reply =
    | Created(shortUrl: string, adminUrl: string, shortId: string, managementPassword: string)
    | Redirect(location: string)
    | PasswordAccepted(redirectUrl: string)
    | Error(status: int, message: string)
  {
    function Status(): int {
      match this
      case Created(_, _, _, _) => 201
      case Redirect(_) => 302
      case PasswordAccepted(_) => 200
      case Error(status, _) => status
    }
  }

  /** The answer of the geo-IP database for an address. */
  datatype GeoRecord = GeoRecord(country: string, region: string, city: string)

  /** The parts of a User-Agent string the parser may recognise. */
  datatype ParsedUserAgent = ParsedUserAgent(
    osName: Option<string>, osVersion: Option<string>, deviceType: Option<string>,
    browserName: Option<string>, browserVersion: Option<string>)

  /** The two lookup libraries a click is enriched with. */
  datatype Enrichment = Enrichment(
    geoLookup: string -> Option<GeoRecord>,
    parseUserAgent: string -> ParsedUserAgent)

  /** The request headers and peer address a click is recorded from. */
  datatype RequestContext = RequestContext(
    forwardedFor: Option<string>, remoteAddress: Option<string>,
    userAgent: Option<string>, referer: Option<string>)

  /** The body of a shorten request. */
  datatype ShortenRequest = ShortenRequest(
    longUrl: Option<string>, customShortId: Option<string>,
    expiresAt: Option<DateText>, password: Option<string>)

  // ------------------------------------------------------------- generators

  /** `Math.ceil(length * 0.75)`: the least number of bytes whose 8-bit groups cover `length` 6-bit characters. */
  function BytesNeeded(length: nat): (n: nat)
    ensures 4 * n >= 3 * length
    ensures n > 0 ==> 4 * (n - 1) < 3 * length
  {
    (3 * length + 3) / 4
  }

  /** A base64url identifier of exactly `length` characters cut from `BytesNeeded(length) + 2` random bytes. */
  function GenerateFixedLengthShortId(length: nat, random: seq<byte>): (id: string)
    requires |random| == BytesNeeded(length) + 2
    ensures |id| == length
    ensures forall i :: 0 <= i < |id| ==> IsBase64UrlChar(id[i])
  {
    Base64UrlLength(random);
    Base64UrlAlphabet(random);
    Base64UrlEncode(random)[..length]
  }

  /** `Math.ceil(length / 2)`: the least number of bytes whose hex digits cover `length` characters. */
  function SecretBytes(length: nat): (n: nat)
    ensures 2 * n >= length
    ensures n > 0 ==> 2 * (n - 1) < length
  {
    (length + 1) / 2
  }

  /** A lower-case hex secret of exactly `length` characters cut from `SecretBytes(length)` random bytes. */
  function GenerateSecurePassword(length: nat, random: seq<byte>): (secret: string)
    requires |random| == SecretBytes(length)
    ensures |secret| == length
    ensures forall i :: 0 <= i < |secret| ==> IsLowerHexChar(secret[i])
  {
    HexLength(random);
    HexAlphabet(random);
    HexEncode(random)[..length]
  }

  // ------------------------------------------------------------- enrichment

  const Ipv4MappedPrefix: string := "::ffff:"

  /** The address handed to the geo-IP database: the part after `::ffff:` for an IPv4-mapped address. */
  function GeoLookupAddress(ip: string): (a: string)
    ensures !Includes(ip, Ipv4MappedPrefix) ==> a == ip
    ensures Includes(ip, Ipv4MappedPrefix) ==>
              var rest := ip[IndexOf(ip, Ipv4MappedPrefix).value + |Ipv4MappedPrefix|..];
              a <= rest && (|a| == |rest| || OccursAt(rest, Ipv4MappedPrefix, |a|))
              && (forall k :: 0 <= k <= |a| ==> !OccursAt(a, Ipv4MappedPrefix, k))
              && (forall k :: 0 <= k < |a| ==> !OccursAt(rest, Ipv4MappedPrefix, k))
  {
    if Includes(ip, Ipv4MappedPrefix) then SecondField(ip, Ipv4MappedPrefix) else ip
  }

  /** An IPv4-mapped IPv6 address is looked up by its IPv4 part. */
  lemma GeoLookupAddressOfMapped(v4: string)
    requires !Includes(v4, Ipv4MappedPrefix)
    ensures GeoLookupAddress(Ipv4MappedPrefix + v4) == v4
  {
    var ip := Ipv4MappedPrefix + v4;
    assert OccursAt(ip, Ipv4MappedPrefix, 0) by { assert ip[0..|Ipv4MappedPrefix|] == Ipv4MappedPrefix; }
    assert IndexOf(ip, Ipv4MappedPrefix) == Some(0);
    assert ip[|Ipv4MappedPrefix|..] == v4;
  }

  datatype GeoInfo = GeoInfo(country: Option<string>, region: Option<string>, city: Option<string>)

  /** The geo fields of a click: absent without an address, 'Unknown' when the database has no answer. */
  function GetGeoInfo(ip: Option<string>, lookup: string -> Option<GeoRecord>): (g: GeoInfo)
    ensures !Truthy(ip) ==> g == GeoInfo(None, None, None)
    ensures Truthy(ip) ==> g.country.Some? && g.region.Some? && g.city.Some?
    ensures Truthy(ip) && lookup(GeoLookupAddress(ip.value)).None? ==>
              g == GeoInfo(Some("Unknown"), Some("Unknown"), Some("Unknown"))
    ensures Truthy(ip) && lookup(GeoLookupAddress(ip.value)).Some? ==>
              var r := lookup(GeoLookupAddress(ip.value)).value;
              g == GeoInfo(Some(r.country), Some(r.region), Some(r.city))
  {
    if !Truthy(ip) then GeoInfo(None, None, None)
    else
      match lookup(GeoLookupAddress(ip.value))
      case Some(r) => GeoInfo(Some(r.country), Some(r.region), Some(r.city))
      case None => GeoInfo(Some("Unknown"), Some("Unknown"), Some("Unknown"))
  }

  /** `name ? `${name} ${version || ''}`.trim() : 'Unknown'`. */
  function NameWithVersion(name: Option<string>, version: Option<string>): (s: string)
    ensures !Truthy(name) ==> s == "Unknown"
    ensures Truthy(name) ==> s == Trim(name.value + " " + OrElse(version, ""))
  {
    if Truthy(name) then Trim(name.value + " " + OrElse(version, "")) else "Unknown"
  }

  datatype UserAgentInfo = UserAgentInfo(os: Option<string>, deviceType: Option<string>, browser: Option<string>)

  /** The device fields of a click: absent without a User-Agent, 'Unknown' for what the parser does not name. */
  function GetUserAgentInfo(ua: Option<string>, parse: string -> ParsedUserAgent): (u: UserAgentInfo)
    ensures !Truthy(ua) ==> u == UserAgentInfo(None, None, None)
    ensures Truthy(ua) ==> u.os.Some? && u.deviceType.Some? && u.browser.Some?
    ensures Truthy(ua) && !Truthy(parse(ua.value).osName) ==> u.os == Some("Unknown")
    ensures Truthy(ua) && !Truthy(parse(ua.value).deviceType) ==> u.deviceType == Some("Unknown")
    ensures Truthy(ua) && !Truthy(parse(ua.value).browserName) ==> u.browser == Some("Unknown")
    ensures Truthy(ua) && Truthy(parse(ua.value).osName) ==>
              u.os == Some(Trim(parse(ua.value).osName.value + " " + OrElse(parse(ua.value).osVersion, "")))
    ensures Truthy(ua) && Truthy(parse(ua.value).deviceType) ==> u.deviceType == parse(ua.value).deviceType
    ensures Truthy(ua) && Truthy(parse(ua.value).browserName) ==>
              u.browser == Some(Trim(parse(ua.value).browserName.value + " " + OrElse(parse(ua.value).browserVersion, "")))
  {
    if !Truthy(ua) then UserAgentInfo(None, None, None)
    else
      var p := parse(ua.value);
      UserAgentInfo(
        Some(NameWithVersion(p.osName, p.osVersion)),
        Some(OrElse(p.deviceType, "Unknown")),
        Some(NameWithVersion(p.browserName, p.browserVersion)))
  }

  /** The client address: the first X-Forwarded-For entry, trimmed, else the peer address. */
  function ClientIp(req: RequestContext): (ip: Option<string>)
    ensures Truthy(req.forwardedFor) ==>
              ip == Some(Trim(BeforeFirst(req.forwardedFor.value, ',')))
              && ',' !in ip.value
              && (ip.value != [] ==> !IsWhiteSpace(ip.value[0]) && !IsWhiteSpace(ip.value[|ip.value| - 1]))
    ensures !Truthy(req.forwardedFor) ==> ip == req.remoteAddress
  {
    if Truthy(req.forwardedFor) then
      var first := BeforeFirst(req.forwardedFor.value, ',');
      TrimIsWindow(first);
      Some(Trim(first))
    else req.remoteAddress
  }

  /** The click a visit records: now, the client address, its enrichment, and the referrer or 'Direct'. */
  function RecordedClick(req: RequestContext, env: Enrichment, now: int): (c: Click)
    ensures c.timestamp == now && c.ipAddress == ClientIp(req)
    ensures c.referrer == Some(OrElse(req.referer, "Direct"))
    ensures GeoInfo(c.country, c.region, c.city) == GetGeoInfo(ClientIp(req), env.geoLookup)
    ensures UserAgentInfo(c.os, c.deviceType, c.browser) == GetUserAgentInfo(req.userAgent, env.parseUserAgent)
  {
    var ip := ClientIp(req);
    var geo := GetGeoInfo(ip, env.geoLookup);
    var ua := GetUserAgentInfo(req.userAgent, env.parseUserAgent);
    Click(now, ip, geo.country, geo.region, geo.city, ua.os, ua.deviceType, ua.browser,
          Some(OrElse(req.referer, "Direct")))
  }

  /** A record after one visit: one more click at the end of the log and one more on the counter. */
  function WithClick(l: Link, c: Click): (r: Link)
    ensures r.clicks == l.clicks + [c] && r.totalClicks == l.totalClicks + 1
    ensures r.(clicks := l.clicks, totalClicks := l.totalClicks) == l
    ensures ClickCountConsistent(l) ==> ClickCountConsistent(r)
  {
    l.(clicks := l.clicks + [c], totalClicks := l.totalClicks + 1)
  }

  /** Recording a click on a record of a consistent store saves, and changes that record only. */
  lemma RecordClickSaves(docs: map<string, Link>, shortId: string, c: Click)
    requires StoreInvariant(docs) && shortId in docs
    ensures SaveOutcome(docs, WithClick(Project(docs[shortId], false), c))
              == (Pass, docs[shortId := WithClick(docs[shortId], c)])
    ensures StoreInvariant(docs[shortId := WithClick(docs[shortId], c)])
  {
  }

  // ---------------------------------------------------------------- shorten

  /** One random draw of `BytesNeeded(6) + 2` bytes for each of the attempts. */
  predicate ValidIdDraws(draws: seq<seq<byte>>) {
    |draws| >= MaxRetries
    && forall i :: 0 <= i < |draws| ==> |draws[i]| == BytesNeeded(ShortIdLength) + 2
  }

  /** The identifiers the attempts try, one per random draw. */
  function Candidates(draws: seq<seq<byte>>): (ids: seq<string>)
    requires ValidIdDraws(draws)
    ensures |ids| == MaxRetries
    ensures forall i :: 0 <= i < MaxRetries ==> ids[i] == GenerateFixedLengthShortId(ShortIdLength, draws[i])
  {
    seq(MaxRetries, i requires 0 <= i < MaxRetries => GenerateFixedLengthShortId(ShortIdLength, draws[i]))
  }

  /** The first attempt from `from` on whose identifier is unused; `None` when every remaining one collides. */
  function FirstUnused(docs: map<string, Link>, ids: seq<string>, from: nat): (r: Option<nat>)
    requires from <= |ids|
    ensures r.Some? ==> from <= r.value < |ids| && ids[r.value] !in docs
    ensures r.Some? ==> forall k :: from <= k < r.value ==> ids[k] in docs
    ensures r.None? <==> forall k :: from <= k < |ids| ==> ids[k] in docs
    decreases |ids| - from
  {
    if from == |ids| then None
    else if ids[from] !in docs then Some(from)
    else FirstUnused(docs, ids, from + 1)
  }

  /**
   * The retry loop of shortening: at most five lookups, stopping at the first
   * unused identifier. Returns it, or `None` after five collisions, with the
   * number of lookups made.
   */
  method GenerateUniqueShortId(store: UrlCollection, draws: seq<seq<byte>>) returns (id: Option<string>, lookups: nat)
    requires ValidIdDraws(draws)
    ensures 1 <= lookups <= MaxRetries
    ensures FirstUnused(store.docs, Candidates(draws), 0) == if id.Some? then Some(lookups - 1) else None
    ensures id.Some? ==> id.value == Candidates(draws)[lookups - 1] && id.value !in store.docs
    ensures id.None? ==> lookups == MaxRetries
  {
    ghost var ids := Candidates(draws);
    var isUnique := false;
    var retries := 0;
    var generatedId := "";
    while !isUnique && retries < MaxRetries
      invariant 0 <= retries <= MaxRetries
      invariant isUnique ==> 1 <= retries && generatedId == ids[retries - 1]
      invariant FirstUnused(store.docs, ids, 0) ==
                  if isUnique then Some(retries - 1) else FirstUnused(store.docs, ids, retries)
    {
      generatedId := GenerateFixedLengthShortId(ShortIdLength, draws[retries]);
      assert generatedId == ids[retries];
      if !store.Exists(generatedId) {
        isUnique := true;
      }
      retries := retries + 1;
    }
    if isUnique {
      id := Some(generatedId);
    } else {
      id := None;
    }
    lookups := retries;
  }

  predicate ValidTarget(url: Option<string>, isUrl: string -> bool) {
    Truthy(url) && isUrl(url.value)
  }

  /** `customShortId || undefined`. */
  function CustomIdOf(body: ShortenRequest): Option<string> {
    if Truthy(body.customShortId) then body.customShortId else None
  }

  /** `password || undefined`. */
  function PasswordOf(body: ShortenRequest): Option<string> {
    if Truthy(body.password) then body.password else None
  }

  /** `expiresAt ? new Date(expiresAt) : undefined`. */
  function ExpiryOf(expiresAt: Option<DateText>): Option<int> {
    if expiresAt.Some? && expiresAt.value.Date? then Some(expiresAt.value.timestamp) else None
  }

  /**
   * What shortening does to the store and what it answers: validation, the
   * custom-id pre-check, the search for an unused generated id, then the insert
   * guarded by the schema and the unique indexes.
   */
  function Shorten(docs: map<string, Link>, body: ShortenRequest, isUrl: string -> bool, origin: string,
                   idDraws: seq<seq<byte>>, secretDraw: seq<byte>, now: int): (out: (Reply, map<string, Link>))
    requires ValidIdDraws(idDraws) && |secretDraw| == SecretBytes(ManagementPasswordLength)
    ensures !ValidTarget(body.longUrl, isUrl) ==> out == (Error(400, InvalidUrlMessage), docs)
    ensures ValidTarget(body.longUrl, isUrl) && CustomIdOf(body).Some?
            && |CustomIdOf(body).value| < CustomShortIdMinLength ==>
              out == (Error(400, CustomIdTooShortMessage), docs)
    ensures ValidTarget(body.longUrl, isUrl) && CustomIdOf(body).Some?
            && |CustomIdOf(body).value| >= CustomShortIdMinLength && CustomIdTaken(docs, CustomIdOf(body).value) ==>
              out == (Error(409, CustomIdInUseMessage), docs)
    ensures ValidTarget(body.longUrl, isUrl) && CustomIdOf(body).Some?
            && CustomShortIdMinLength <= |CustomIdOf(body).value| && !CustomIdTaken(docs, CustomIdOf(body).value) ==>
              if |CustomIdOf(body).value| > CustomShortIdMaxLength then out == (Error(400, ValidationFailedMessage), docs)
              else if CustomIdOf(body).value in docs then out == (Error(409, ShortIdConflictMessage), docs)
              else out.0.Created? && out.0.shortId == CustomIdOf(body).value
    ensures ValidTarget(body.longUrl, isUrl) && CustomIdOf(body).None? ==>
              if FirstUnused(docs, Candidates(idDraws), 0).None? then out == (Error(500, GenerationFailedMessage), docs)
              else out.0.Created? && out.0.shortId == Candidates(idDraws)[FirstUnused(docs, Candidates(idDraws), 0).value]
    ensures out.0.Status() != 201 ==> out.1 == docs
    ensures out.0.Created? ==>
              && ValidTarget(body.longUrl, isUrl)
              && out.0.shortId !in docs
              && out.1 == docs[out.0.shortId := NewLink(body.longUrl.value, out.0.shortId, CustomIdOf(body),
                                                        ExpiryOf(body.expiresAt), PasswordOf(body),
                                                        out.0.managementPassword, now)]
              && out.0.shortUrl == origin + "/" + out.0.shortId
              && |out.0.managementPassword| == ManagementPasswordLength
              && (forall i :: 0 <= i < |out.0.managementPassword| ==> IsLowerHexChar(out.0.managementPassword[i]))
    ensures StoreInvariant(docs) ==> StoreInvariant(out.1)
  {
    if !ValidTarget(body.longUrl, isUrl) then (Error(400, InvalidUrlMessage), docs)
    else if CustomIdOf(body).Some? && |CustomIdOf(body).value| < CustomShortIdMinLength then
      (Error(400, CustomIdTooShortMessage), docs)
    else if CustomIdOf(body).Some? && CustomIdTaken(docs, CustomIdOf(body).value) then
      (Error(409, CustomIdInUseMessage), docs)
    else if CustomIdOf(body).None? && FirstUnused(docs, Candidates(idDraws), 0).None? then
      (Error(500, GenerationFailedMessage), docs)
    else
      var shortIdToUse :=
        if CustomIdOf(body).Some? then CustomIdOf(body).value
        else Candidates(idDraws)[FirstUnused(docs, Candidates(idDraws), 0).value];
      var managementPassword := GenerateSecurePassword(ManagementPasswordLength, secretDraw);
      var newUrl := NewLink(body.longUrl.value, shortIdToUse, CustomIdOf(body), ExpiryOf(body.expiresAt),
                            PasswordOf(body), managementPassword, now);
      var saved := InsertOutcome(docs, newUrl);
      match saved.0
      case Pass =>
        (Created(origin + "/" + shortIdToUse, origin + "/admin", shortIdToUse, managementPassword), saved.1)
      case Fail(DuplicateKey) => (Error(409, ShortIdConflictMessage), docs)
      case Fail(ValidationError) => (Error(400, ValidationFailedMessage), docs)
      case Fail(DocumentNotFound) => (Error(500, ShortenServerErrorMessage), docs)
  }

  /** The shortening handler. */
  method ShortenUrl(store: UrlCollection, body: ShortenRequest, isUrl: string -> bool, origin: string,
                    idDraws: seq<seq<byte>>, secretDraw: seq<byte>, now: int) returns (reply: Reply)
    requires ValidIdDraws(idDraws) && |secretDraw| == SecretBytes(ManagementPasswordLength)
    modifies store
    ensures (reply, store.docs) == Shorten(old(store.docs), body, isUrl, origin, idDraws, secretDraw, now)
    ensures old(store.Valid()) ==> store.Valid()
  {
    if !Truthy(body.longUrl) || !isUrl(body.longUrl.value) {
      return Error(400, InvalidUrlMessage);
    }
    if Truthy(body.customShortId) && |body.customShortId.value| < CustomShortIdMinLength {
      return Error(400, CustomIdTooShortMessage);
    }
    var shortIdToUse: string;
    if Truthy(body.customShortId) {
      if store.HasCustomShortId(body.customShortId.value) {
        return Error(409, CustomIdInUseMessage);
      }
      shortIdToUse := body.customShortId.value;
    } else {
      var generatedId, _ := GenerateUniqueShortId(store, idDraws);
      if generatedId.None? {
        return Error(500, GenerationFailedMessage);
      }
      shortIdToUse := generatedId.value;
    }
    var managementPassword := GenerateSecurePassword(ManagementPasswordLength, secretDraw);
    var newUrl := NewLink(body.longUrl.value, shortIdToUse, CustomIdOf(body), ExpiryOf(body.expiresAt),
                          PasswordOf(body), managementPassword, now);
    var saved := store.Insert(newUrl);
    match saved
    case Pass =>
      reply := Created(origin + "/" + newUrl.shortId, origin + "/admin", newUrl.shortId, managementPassword);
    case Fail(DuplicateKey) =>
      reply := Error(409, ShortIdConflictMessage);
    case Fail(ValidationError) =>
      reply := Error(400, ValidationFailedMessage);
    case Fail(DocumentNotFound) =>
      reply := Error(500, ShortenServerErrorMessage);
  }

  // --------------------------------------------------------------- redirect

  predicate IsExpired(l: Link, now: int) {
    l.expiresAt.Some? && l.expiresAt.value < now
  }

  /**
   * What a visit to `/{shortId}` answers and records: 404 when unknown, 410 when
   * expired (checked before the password), the password page when protected, and
   * otherwise a redirect issued only after the click was saved.
   */
  function RedirectOutcome(docs: map<string, Link>, shortId: string, req: RequestContext, env: Enrichment,
                           now: int): (out: (Reply, map<string, Link>))
    ensures shortId !in docs ==> out == (Error(404, NotFoundMessage), docs)
    ensures shortId in docs && IsExpired(docs[shortId], now) ==> out == (Error(410, ExpiredMessage), docs)
    ensures shortId in docs && !IsExpired(docs[shortId], now) && Truthy(docs[shortId].password) ==>
              out == (Redirect("/verify/" + shortId), docs)
    ensures shortId in docs && docs[shortId].shortId == shortId
            && !IsExpired(docs[shortId], now) && !Truthy(docs[shortId].password) ==>
              var visited := WithClick(docs[shortId], RecordedClick(req, env, now));
              out == if SchemaValid(visited) then (Redirect(docs[shortId].longUrl), docs[shortId := visited])
                     else (Error(500, RedirectServerErrorMessage), docs)
    ensures out.1 != docs ==> shortId in docs && out.0 == Redirect(docs[shortId].longUrl)
    ensures StoreInvariant(docs) ==> StoreInvariant(out.1)
  {
    if shortId !in docs then (Error(404, NotFoundMessage), docs)
    else
      var entry := Project(docs[shortId], false);
      if IsExpired(entry, now) then (Error(410, ExpiredMessage), docs)
      else if Truthy(entry.password) then (Redirect("/verify/" + shortId), docs)
      else
        var saved := SaveOutcome(docs, WithClick(entry, RecordedClick(req, env, now)));
        assert Merge(docs[shortId], WithClick(entry, RecordedClick(req, env, now)))
                 == WithClick(docs[shortId], RecordedClick(req, env, now));
        if saved.0.Fail? then (Error(500, RedirectServerErrorMessage), docs)
        else (Redirect(entry.longUrl), saved.1)
  }

  /** An open link redirects to its target and gains exactly one click, on a consistent store. */
  lemma RedirectRecordsOneClick(docs: map<string, Link>, shortId: string, req: RequestContext, env: Enrichment, now: int)
    requires StoreInvariant(docs) && shortId in docs
    requires !IsExpired(docs[shortId], now) && !Truthy(docs[shortId].password)
    ensures RedirectOutcome(docs, shortId, req, env, now)
              == (Redirect(docs[shortId].longUrl), docs[shortId := WithClick(docs[shortId], RecordedClick(req, env, now))])
  {
    RecordClickSaves(docs, shortId, RecordedClick(req, env, now));
  }

  /** The visit handler for a short link. */
  method RedirectToLongUrl(store: UrlCollection, shortId: string, req: RequestContext, env: Enrichment, now: int)
    returns (reply: Reply)
    modifies store
    ensures (reply, store.docs) == RedirectOutcome(old(store.docs), shortId, req, env, now)
    ensures old(store.Valid()) ==> store.Valid()
  {
    var ipAddress := ClientIp(req);
    var referrer := OrElse(req.referer, "Direct");
    var urlEntry := store.FindOne(shortId, false);
    if urlEntry == null {
      return Error(404, NotFoundMessage);
    }
    if urlEntry.expiresAt.Some? && urlEntry.expiresAt.value < now {
      return Error(410, ExpiredMessage);
    }
    if Truthy(urlEntry.password) {
      return Redirect("/verify/" + shortId);
    }
    var geoInfo := GetGeoInfo(ipAddress, env.geoLookup);
    var uaInfo := GetUserAgentInfo(req.userAgent, env.parseUserAgent);
    var click := Click(now, ipAddress, geoInfo.country, geoInfo.region, geoInfo.city,
                       uaInfo.os, uaInfo.deviceType, uaInfo.browser, Some(referrer));
    assert click == RecordedClick(req, env, now);
    ghost var loaded := urlEntry.Value();
    urlEntry.clicks := urlEntry.clicks + [click];
    urlEntry.totalClicks := urlEntry.totalClicks + 1;
    assert urlEntry.Value() == WithClick(loaded, click);
    var saved := store.Save(urlEntry);
    if saved.Fail? {
      return Error(500, RedirectServerErrorMessage);
    }
    reply := Redirect(urlEntry.longUrl);
  }

  // ---------------------------------------------------------- verify password

  /**
   * What submitting a public password answers and records: 404 when unknown,
   * 401 unless the record has a password and it matches, and otherwise the
   * target, returned only after the click was saved. Expiry is not consulted.
   */
  function VerifyOutcome(docs: map<string, Link>, shortId: string, password: Option<string>, req: RequestContext,
                         env: Enrichment, now: int): (out: (Reply, map<string, Link>))
    ensures shortId !in docs ==> out == (Error(404, NotFoundMessage), docs)
    ensures shortId in docs && (!Truthy(docs[shortId].password) || docs[shortId].password != password) ==>
              out == (Error(401, IncorrectPasswordMessage), docs)
    ensures shortId in docs && docs[shortId].shortId == shortId
            && Truthy(docs[shortId].password) && docs[shortId].password == password ==>
              var visited := WithClick(docs[shortId], RecordedClick(req, env, now));
              out == if SchemaValid(visited) then (PasswordAccepted(docs[shortId].longUrl), docs[shortId := visited])
                     else (Error(500, VerifyServerErrorMessage), docs)
    ensures out.1 != docs ==> shortId in docs && out.0 == PasswordAccepted(docs[shortId].longUrl)
    ensures StoreInvariant(docs) ==> StoreInvariant(out.1)
  {
    if shortId !in docs then (Error(404, NotFoundMessage), docs)
    else
      var entry := Project(docs[shortId], false);
      if !Truthy(entry.password) || entry.password != password then (Error(401, IncorrectPasswordMessage), docs)
      else
        var saved := SaveOutcome(docs, WithClick(entry, RecordedClick(req, env, now)));
        assert Merge(docs[shortId], WithClick(entry, RecordedClick(req, env, now)))
                 == WithClick(docs[shortId], RecordedClick(req, env, now));
        if saved.0.Fail? then (Error(500, VerifyServerErrorMessage), docs)
        else (PasswordAccepted(entry.longUrl), saved.1)
  }

  /** The right password yields the target and exactly one click, whatever `expiresAt` says. */
  lemma VerifyRecordsOneClick(docs: map<string, Link>, shortId: string, password: Option<string>,
                              req: RequestContext, env: Enrichment, now: int)
    requires StoreInvariant(docs) && shortId in docs
    requires Truthy(docs[shortId].password) && docs[shortId].password == password
    ensures VerifyOutcome(docs, shortId, password, req, env, now)
              == (PasswordAccepted(docs[shortId].longUrl),
                  docs[shortId := WithClick(docs[shortId], RecordedClick(req, env, now))])
  {
    RecordClickSaves(docs, shortId, RecordedClick(req, env, now));
  }

  /** The public-password handler for a protected link. */
  method VerifyPublicPassword(store: UrlCollection, shortId: string, password: Option<string>, req: RequestContext,
                              env: Enrichment, now: int) returns (reply: Reply)
    modifies store
    ensures (reply, store.docs) == VerifyOutcome(old(store.docs), shortId, password, req, env, now)
    ensures old(store.Valid()) ==> store.Valid()
  {
    var urlEntry := store.FindOne(shortId, false);
    if urlEntry == null {
      return Error(404, NotFoundMessage);
    }
    if !Truthy(urlEntry.password) || urlEntry.password != password {
      return Error(401, IncorrectPasswordMessage);
    }
    var ipAddress := ClientIp(req);
    var referrer := OrElse(req.referer, "Direct");
    var geoInfo := GetGeoInfo(ipAddress, env.geoLookup);
    var uaInfo := GetUserAgentInfo(req.userAgent, env.parseUserAgent);
    var click := Click(now, ipAddress, geoInfo.country, geoInfo.region, geoInfo.city,
                       uaInfo.os, uaInfo.deviceType, uaInfo.browser, Some(referrer));
    assert click == RecordedClick(req, env, now);
    ghost var loaded := urlEntry.Value();
    urlEntry.clicks := urlEntry.clicks + [click];
    urlEntry.totalClicks := urlEntry.totalClicks + 1;
    assert urlEntry.Value() == WithClick(loaded, click);
    var saved := store.Save(urlEntry);
    if saved.Fail? {
      return Error(500, VerifyServerErrorMessage);
    }
    reply := PasswordAccepted(urlEntry.longUrl);
  }
}
