/**
 * The management side (src/controllers/adminController.js): the guard that
 * checks the management secret, the analytics summary of a link's click log,
 * and the update of a link's target and settings.
 */
module AdminController {
  import opened Wrappers
  import opened JsString
  import opened Frequencies
  import opened UrlModel
  import UrlController

  const MissingCredentialsMessage := "Short ID and management password are required."
  const InvalidCredentialsMessage := "Invalid Short ID or management password."
  const InvalidNewUrlMessage := "Invalid new URL provided. Please include http:// or https://"
  const UpdatedMessage := "Target URL and settings updated successfully."
  const UpdateServerErrorMessage := "Server error during updating target URL."

  /** How many of the latest clicks the summary lists. */
  const RecentClickLimit: nat := 50

  /** The summary a link's owner sees. */
  datatype Analysis = Analysis(
    longUrl: string,
    totalClicks: int,
    createdAt: int,
    expiresAt: Option<int>,
    passwordProtected: bool,
    recentClicks: seq<Click>,
    countryDistribution: map<string, nat>,
    deviceTypeDistribution: map<string, nat>,
    osDistribution: map<string, nat>,
    browserDistribution: map<string, nat>,
    referrerDistribution: map<string, nat>)

  datatype Reply =
    | Authenticated
    | Details(analysis: Analysis)
    | Updated(message: string, updatedUrl: string)
    | Error(status: int, message: string)

  /** The short id may come from the path or from the body; the secret comes from the body. */
  datatype Credentials = Credentials(
    paramShortId: Option<string>, bodyShortId: Option<string>, managementPassword: Option<string>)

  /** `req.params.shortId || req.body.shortId`. */
  function AdminShortId(c: Credentials): Option<string> {
    if Truthy(c.paramShortId) then c.paramShortId else c.bodyShortId
  }

  // ------------------------------------------------------------------ guard

  /**
   * The guard's decision: the authenticated short id, or the reply that ends
   * the request. An unknown id and a wrong secret get the same answer.
   */
  function Authenticate(docs: map<string, Link>, c: Credentials): (r: Result<string, Reply>)
    ensures !Truthy(AdminShortId(c)) || !Truthy(c.managementPassword) ==> r == Err(Error(400, MissingCredentialsMessage))
    ensures Truthy(AdminShortId(c)) && Truthy(c.managementPassword)
            && (AdminShortId(c).value !in docs || docs[AdminShortId(c).value].managementPassword != c.managementPassword) ==>
              r == Err(Error(401, InvalidCredentialsMessage))
    ensures r.Ok? <==>
              Truthy(AdminShortId(c)) && Truthy(c.managementPassword)
              && AdminShortId(c).value in docs && docs[AdminShortId(c).value].managementPassword == c.managementPassword
    ensures r.Ok? ==> r.value == AdminShortId(c).value
  {
    var shortId := AdminShortId(c);
    if !Truthy(shortId) || !Truthy(c.managementPassword) then Err(Error(400, MissingCredentialsMessage))
    else if shortId.value !in docs || docs[shortId.value].managementPassword != c.managementPassword then
      Err(Error(401, InvalidCredentialsMessage))
    else Ok(shortId.value)
  }

  /** The guard middleware: loads the record with its secret and hands it on, or ends the request. */
  method AuthenticateAdminMiddleware(store: UrlCollection, c: Credentials) returns (r: Result<LinkDocument, Reply>)
    ensures r.Ok? <==> Authenticate(store.docs, c).Ok?
    ensures r.Err? ==> Authenticate(store.docs, c) == Err(r.error)
    ensures r.Ok? ==> fresh(r.value) && r.value.Value() == store.docs[Authenticate(store.docs, c).value]
  {
    var shortId := AdminShortId(c);
    if !Truthy(shortId) || !Truthy(c.managementPassword) {
      return Err(Error(400, MissingCredentialsMessage));
    }
    var urlEntry := store.FindOne(shortId.value, true);
    if urlEntry == null || urlEntry.managementPassword != c.managementPassword {
      return Err(Error(401, InvalidCredentialsMessage));
    }
    r := Ok(urlEntry);
  }

  /** The owner's login handler: an empty success body once the guard passes. */
  method AuthenticateAdmin(store: UrlCollection, c: Credentials) returns (reply: Reply)
    ensures Authenticate(store.docs, c).Ok? ==> reply == Authenticated
    ensures Authenticate(store.docs, c).Err? ==> reply == Authenticate(store.docs, c).error
  {
    var auth := AuthenticateAdminMiddleware(store, c);
    if auth.Err? {
      return auth.error;
    }
    reply := Authenticated;
  }

  // -------------------------------------------------------------- analytics

  /** `s.slice().reverse()`. */
  function Reverse<T>(s: seq<T>): (r: seq<T>)
    ensures |r| == |s|
    ensures forall i :: 0 <= i < |s| ==> r[i] == s[|s| - 1 - i]
  {
    if s == [] then [] else Reverse(s[1..]) + [s[0]]
  }

  /** `clicks.slice(-50).reverse()`: the latest clicks, newest first. */
  function RecentClicks(clicks: seq<Click>): (r: seq<Click>)
    ensures |r| == if |clicks| < RecentClickLimit then |clicks| else RecentClickLimit
    ensures forall i :: 0 <= i < |r| ==> r[i] == clicks[|clicks| - 1 - i]
  {
    var from := if |clicks| < RecentClickLimit then 0 else |clicks| - RecentClickLimit;
    Reverse(clicks[from..])
  }

  /** The distribution key of each click, in order. */
  function KeysOf(clicks: seq<Click>, key: Click -> string): (ks: seq<string>)
    ensures |ks| == |clicks|
    ensures forall i :: 0 <= i < |clicks| ==> ks[i] == key(clicks[i])
  {
    seq(|clicks|, i requires 0 <= i < |clicks| => key(clicks[i]))
  }

  /** The frequency map a distribution reports: how many clicks fall under each key. */
  function Distribution(clicks: seq<Click>, key: Click -> string): (m: map<string, nat>)
    ensures forall k :: k in m <==> exists i :: 0 <= i < |clicks| && key(clicks[i]) == k
    ensures forall k :: k in m ==> m[k] == multiset(KeysOf(clicks, key))[k]
  {
    var ks := KeysOf(clicks, key);
    forall k
      ensures k in multiset(ks) <==> exists i :: 0 <= i < |clicks| && key(clicks[i]) == k
    {
      if k in multiset(ks) {
        var i :| 0 <= i < |ks| && ks[i] == k;
        assert key(clicks[i]) == k;
      }
      if exists i :: 0 <= i < |clicks| && key(clicks[i]) == k {
        var i :| 0 <= i < |clicks| && key(clicks[i]) == k;
        assert ks[i] == k;
      }
    }
    Tally(ks)
  }

  /** Every distribution accounts for every click exactly once. */
  lemma DistributionSum(clicks: seq<Click>, key: Click -> string)
    ensures SumValues(Distribution(clicks, key)) == |clicks|
  {
    TallySum(KeysOf(clicks, key));
  }

  function CountryKey(c: Click): (k: string)
    ensures !Truthy(c.country) ==> k == "Unknown"
    ensures Truthy(c.country) ==> k == c.country.value
  {
    OrElse(c.country, "Unknown")
  }

  function DeviceTypeKey(c: Click): (k: string)
    ensures !Truthy(c.deviceType) ==> k == "Unknown"
    ensures Truthy(c.deviceType) ==> k == c.deviceType.value
  {
    OrElse(c.deviceType, "Unknown")
  }

  function OsKey(c: Click): (k: string)
    ensures !Truthy(c.os) ==> k == "Unknown"
    ensures Truthy(c.os) ==> k == c.os.value
  {
    OrElse(c.os, "Unknown")
  }

  function BrowserKey(c: Click): (k: string)
    ensures !Truthy(c.browser) ==> k == "Unknown"
    ensures Truthy(c.browser) ==> k == c.browser.value
  {
    OrElse(c.browser, "Unknown")
  }

  /**
   * The referrer's domain: the referrer (or 'Direct' when there is none) when
   * `hostname` cannot parse it as a URL, and its host name when it can.
   */
  function ReferrerKey(hostname: string -> Option<string>, c: Click): (k: string)
    ensures var referrer := OrElse(c.referrer, "Direct");
            k == if hostname(referrer).Some? then hostname(referrer).value else referrer
    ensures !Truthy(c.referrer) && hostname("Direct").None? ==> k == "Direct"
  {
    var referrer := OrElse(c.referrer, "Direct");
    match hostname(referrer)
    case Some(domain) => domain
    case None => referrer
  }

  /** The summary of one record, as returned to its owner. */
  function Analyze(l: Link, hostname: string -> Option<string>): (a: Analysis)
    ensures a.longUrl == l.longUrl && a.totalClicks == l.totalClicks
    ensures a.createdAt == l.createdAt && a.expiresAt == l.expiresAt
    ensures a.passwordProtected <==> Truthy(l.password)
    ensures a.recentClicks == RecentClicks(l.clicks)
    ensures a.countryDistribution == Distribution(l.clicks, CountryKey)
    ensures a.deviceTypeDistribution == Distribution(l.clicks, DeviceTypeKey)
    ensures a.osDistribution == Distribution(l.clicks, OsKey)
    ensures a.browserDistribution == Distribution(l.clicks, BrowserKey)
    ensures a.referrerDistribution == Distribution(l.clicks, c => ReferrerKey(hostname, c))
  {
    Analysis(
      l.longUrl, l.totalClicks, l.createdAt, l.expiresAt, Truthy(l.password), RecentClicks(l.clicks),
      Distribution(l.clicks, CountryKey),
      Distribution(l.clicks, DeviceTypeKey),
      Distribution(l.clicks, OsKey),
      Distribution(l.clicks, BrowserKey),
      Distribution(l.clicks, c => ReferrerKey(hostname, c)))
  }

  /**
   * Each of the five distributions adds up to the number of clicks, which on a
   * consistent record is also the reported `totalClicks`.
   */
  lemma AnalysisCountsAddUp(l: Link, hostname: string -> Option<string>)
    ensures var a := Analyze(l, hostname);
            && SumValues(a.countryDistribution) == |l.clicks|
            && SumValues(a.deviceTypeDistribution) == |l.clicks|
            && SumValues(a.osDistribution) == |l.clicks|
            && SumValues(a.browserDistribution) == |l.clicks|
            && SumValues(a.referrerDistribution) == |l.clicks|
            && (ClickCountConsistent(l) ==> SumValues(a.countryDistribution) == a.totalClicks)
  {
    DistributionSum(l.clicks, CountryKey);
    DistributionSum(l.clicks, DeviceTypeKey);
    DistributionSum(l.clicks, OsKey);
    DistributionSum(l.clicks, BrowserKey);
    DistributionSum(l.clicks, c => ReferrerKey(hostname, c));
  }

  /** The details reply: the guard's error, or the summary of the authenticated record. */
  function DetailsOutcome(docs: map<string, Link>, c: Credentials, hostname: string -> Option<string>): (reply: Reply)
    ensures Authenticate(docs, c).Err? ==> reply == Authenticate(docs, c).error
    ensures Authenticate(docs, c).Ok? ==> reply == Details(Analyze(docs[Authenticate(docs, c).value], hostname))
  {
    match Authenticate(docs, c)
    case Err(e) => e
    case Ok(shortId) => Details(Analyze(docs[shortId], hostname))
  }

  /** The owner's details handler: the analytics summary of the authenticated record. */
  method GetAdminUrlDetails(store: UrlCollection, c: Credentials, hostname: string -> Option<string>) returns (reply: Reply)
    ensures reply == DetailsOutcome(store.docs, c, hostname)
  {
    var auth := AuthenticateAdminMiddleware(store, c);
    if auth.Err? {
      return auth.error;
    }
    var urlEntry := auth.value;
    reply := Details(Analyze(urlEntry.Value(), hostname));
  }

  // ------------------------------------------------- distributions as written

  /** A value an object literal `{}` holds as its own property or inherits from `Object.prototype`. */
  datatype JsValue = Undefined | Number(n: int) | Text(s: string) | NativeFunction(name: string) | PrototypeObject

  /** The function-valued properties every object literal inherits from `Object.prototype`. */
  const ObjectPrototypeMethods: set<string> := {
    "constructor", "hasOwnProperty", "isPrototypeOf", "propertyIsEnumerable", "toLocaleString",
    "toString", "valueOf", "__defineGetter__", "__defineSetter__", "__lookupGetter__", "__lookupSetter__"}

  /** `acc[k]` on an accumulator that started as `{}`. */
  function Lookup(acc: map<string, JsValue>, k: string): (v: JsValue)
    ensures k in acc ==> v == acc[k]
    ensures k !in acc && k !in ObjectPrototypeMethods && k != "__proto__" ==> v == Undefined
    ensures k !in acc && k == "__proto__" ==> v == PrototypeObject
    ensures k !in acc && k != "__proto__" && k in ObjectPrototypeMethods ==> v == NativeFunction(k)
  {
    if k in acc then acc[k]
    else if k == "__proto__" then PrototypeObject
    else if k in ObjectPrototypeMethods then NativeFunction(k)
    else Undefined
  }

  /** How a native function reads when converted to a string. */
  function NativeSource(name: string): string {
    "function " + (if name == "constructor" then "Object" else name) + "() { [native code] }"
  }

  /** `(v || 0) + 1`: numeric addition for falsy values and numbers, string concatenation otherwise. */
  function PlusOne(v: JsValue): (r: JsValue)
    ensures v.Undefined? ==> r == Number(1)
    ensures v.Number? ==> r == Number(v.n + 1)
    ensures r.Number? || r.Text?
  {
    match v
    case Undefined => Number(1)
    case Number(n) => Number(n + 1)
    case Text(s) => if s == "" then Number(1) else Text(s + "1")
    case NativeFunction(name) => Text(NativeSource(name) + "1")
    case PrototypeObject => Text("[object Object]1")
  }

  /** `acc[k] = v` for a number or string `v`: assigning a primitive to `__proto__` changes nothing. */
  function Assign(acc: map<string, JsValue>, k: string, v: JsValue): (r: map<string, JsValue>)
    requires v.Number? || v.Text?
    ensures k != "__proto__" ==> r == acc[k := v]
    ensures k == "__proto__" ==> r == acc
  {
    if k == "__proto__" then acc else acc[k := v]
  }

  /** The reduce `acc[k] = (acc[k] || 0) + 1` over `keys`, starting from `{}`. */
  function TallyAsWritten(keys: seq<string>): (r: map<string, JsValue>)
    ensures forall k :: k in r <==> k in keys && k != "__proto__"
    decreases |keys|
  {
    if keys == [] then map[]
    else
      var n := |keys| - 1;
      assert keys == keys[..n] + [keys[n]];
      var acc := TallyAsWritten(keys[..n]);
      Assign(acc, keys[n], PlusOne(Lookup(acc, keys[n])))
  }

  /** A distribution as the handler computes it. */
  function DistributionAsWritten(clicks: seq<Click>, key: Click -> string): (r: map<string, JsValue>)
    ensures forall k :: k in r <==> k != "__proto__" && exists i :: 0 <= i < |clicks| && key(clicks[i]) == k
  {
    var ks := KeysOf(clicks, key);
    assert forall k :: k in ks <==> exists i :: 0 <= i < |clicks| && key(clicks[i]) == k by {
      forall k | k in ks
        ensures exists i :: 0 <= i < |clicks| && key(clicks[i]) == k
      {
        var i :| 0 <= i < |ks| && ks[i] == k;
        assert key(clicks[i]) == k;
      }
    }
    TallyAsWritten(ks)
  }

  /** When no key names a property of `Object.prototype`, the reduce counts exactly like `Tally`. */
  lemma {:induction false} AsWrittenAgreesOffPrototype(keys: seq<string>)
    requires forall i :: 0 <= i < |keys| ==> keys[i] !in ObjectPrototypeMethods && keys[i] != "__proto__"
    ensures forall k :: k in TallyAsWritten(keys) <==> k in Tally(keys)
    ensures forall k :: k in Tally(keys) ==> TallyAsWritten(keys)[k] == Number(Tally(keys)[k])
    decreases |keys|
  {
    if keys != [] {
      var n := |keys| - 1;
      var k := keys[n];
      AsWrittenAgreesOffPrototype(keys[..n]);
      var acc, m := TallyAsWritten(keys[..n]), Tally(keys[..n]);
      assert Lookup(acc, k) == if k in m then Number(m[k]) else Undefined;
      assert TallyAsWritten(keys) == acc[k := PlusOne(Lookup(acc, k))];
      assert Tally(keys) == Bump(m, k);
    }
  }

  /** The reduce turns the count of the key 'constructor' into a string. */
  lemma ConstructorKeyAsWritten()
    ensures TallyAsWritten(["constructor"]) == map["constructor" := Text("function Object() { [native code] }1")]
  {
    assert ["constructor"][..0] == [];
    assert Lookup(map[], "constructor") == NativeFunction("constructor");
    assert NativeSource("constructor") + "1" == "function Object() { [native code] }1";
  }

  /** A click whose Referer header is 'constructor' gets a string instead of a count. */
  lemma ReferrerConstructorCountsAsText(c: Click, hostname: string -> Option<string>)
    requires c.referrer == Some("constructor") && hostname("constructor").None?
    ensures DistributionAsWritten([c], k => ReferrerKey(hostname, k))
              == map["constructor" := Text("function Object() { [native code] }1")]
    ensures Distribution([c], k => ReferrerKey(hostname, k)) == map["constructor" := 1]
  {
    var keys := KeysOf([c], k => ReferrerKey(hostname, k));
    assert keys == ["constructor"];
    ConstructorKeyAsWritten();
  }

  /** A click whose Referer header is '__proto__' is not counted at all. */
  lemma ReferrerProtoClickLost(c: Click, hostname: string -> Option<string>)
    requires c.referrer == Some("__proto__") && hostname("__proto__").None?
    ensures DistributionAsWritten([c], k => ReferrerKey(hostname, k)) == map[]
    ensures Distribution([c], k => ReferrerKey(hostname, k)) == map["__proto__" := 1]
  {
    var keys := KeysOf([c], k => ReferrerKey(hostname, k));
    assert keys == ["__proto__"] && keys[..0] == [];
    assert TallyAsWritten(keys[..0]) == map[];
    assert TallyAsWritten(keys) == Assign(map[], "__proto__", PlusOne(Lookup(map[], "__proto__")));
  }

  // ----------------------------------------------------------------- update

  /** The body of an update: each field absent (undefined) or given. */
  datatype UpdateRequest = UpdateRequest(newLongUrl: Option<string>, newPassword: Option<string>, newExpiresAt: Option<DateText>)

  /** The public password after an update: kept when not given, cleared by '', replaced otherwise. */
  function UpdatedPassword(current: Option<string>, newPassword: Option<string>): (r: Option<string>)
    ensures newPassword.None? ==> r == current
    ensures newPassword == Some("") ==> r.None?
    ensures newPassword.Some? && newPassword.value != "" ==> r == newPassword
  {
    match newPassword
    case None => current
    case Some(p) => if p == "" then None else Some(p)
  }

  /** The expiry after an update: kept when not given, cleared by '', replaced by a given date. */
  function UpdatedExpiry(current: Option<int>, newExpiresAt: Option<DateText>): (r: Option<int>)
    ensures newExpiresAt.None? ==> r == current
    ensures newExpiresAt == Some(EmptyText) ==> r.None?
    ensures newExpiresAt.Some? && newExpiresAt.value.Date? ==> r == Some(newExpiresAt.value.timestamp)
  {
    match newExpiresAt
    case None => current
    case Some(EmptyText) => None
    case Some(Date(t)) => Some(t)
  }

  /** The record with the new target and settings; identity, secret and click data untouched. */
  function Edited(l: Link, newLongUrl: string, req: UpdateRequest): (r: Link)
    ensures r.longUrl == newLongUrl
    ensures r.password == UpdatedPassword(l.password, req.newPassword)
    ensures r.expiresAt == UpdatedExpiry(l.expiresAt, req.newExpiresAt)
    ensures r.(longUrl := l.longUrl, password := l.password, expiresAt := l.expiresAt) == l
  {
    l.(longUrl := newLongUrl, password := UpdatedPassword(l.password, req.newPassword),
       expiresAt := UpdatedExpiry(l.expiresAt, req.newExpiresAt))
  }

  /**
   * What an update answers and does to the store: the guard's error, 400 for
   * a missing or invalid new target, otherwise the edited record is saved.
   */
  function UpdateOutcome(docs: map<string, Link>, c: Credentials, req: UpdateRequest, isUrl: string -> bool)
    : (out: (Reply, map<string, Link>))
    ensures Authenticate(docs, c).Err? ==> out == (Authenticate(docs, c).error, docs)
    ensures Authenticate(docs, c).Ok? && !UrlController.ValidTarget(req.newLongUrl, isUrl) ==>
              out == (Error(400, InvalidNewUrlMessage), docs)
    ensures out.1 != docs ==>
              && Authenticate(docs, c).Ok? && UrlController.ValidTarget(req.newLongUrl, isUrl)
              && out.0 == Updated(UpdatedMessage, req.newLongUrl.value)
    ensures StoreInvariant(docs) && Authenticate(docs, c).Ok? && UrlController.ValidTarget(req.newLongUrl, isUrl) ==>
              var id := Authenticate(docs, c).value;
              out == (Updated(UpdatedMessage, req.newLongUrl.value),
                      docs[id := Edited(docs[id], req.newLongUrl.value, req)])
    ensures StoreInvariant(docs) ==> StoreInvariant(out.1)
  {
    match Authenticate(docs, c)
    case Err(e) => (e, docs)
    case Ok(shortId) =>
      if !UrlController.ValidTarget(req.newLongUrl, isUrl) then (Error(400, InvalidNewUrlMessage), docs)
      else
        var edited := Edited(Project(docs[shortId], true), req.newLongUrl.value, req);
        var saved := SaveOutcome(docs, edited);
        assert Merge(docs[shortId], edited) == edited;
        if saved.0.Fail? then (Error(500, UpdateServerErrorMessage), docs)
        else (Updated(UpdatedMessage, edited.longUrl), saved.1)
  }

  /** The owner's update handler: new target, password and expiry for the authenticated record. */
  method UpdateTargetUrl(store: UrlCollection, c: Credentials, req: UpdateRequest, isUrl: string -> bool)
    returns (reply: Reply)
    modifies store
    ensures (reply, store.docs) == UpdateOutcome(old(store.docs), c, req, isUrl)
    ensures old(store.Valid()) ==> store.Valid()
  {
    var auth := AuthenticateAdminMiddleware(store, c);
    if auth.Err? {
      return auth.error;
    }
    var urlEntry := auth.value;
    if !Truthy(req.newLongUrl) || !isUrl(req.newLongUrl.value) {
      return Error(400, InvalidNewUrlMessage);
    }
    urlEntry.longUrl := req.newLongUrl.value;
    if req.newPassword.Some? {
      urlEntry.password := if req.newPassword.value == "" then None else req.newPassword;
    }
    if req.newExpiresAt.Some? {
      urlEntry.expiresAt := match req.newExpiresAt.value
        case EmptyText => None
        case Date(t) => Some(t);
    }
    var saved := store.Save(urlEntry);
    if saved.Fail? {
      return Error(500, UpdateServerErrorMessage);
    }
    reply := Updated(UpdatedMessage, urlEntry.longUrl);
  }
}
