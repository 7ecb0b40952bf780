/**
 * The origin gate in front of every route: the allow-list built once at
 * start-up from the optional `FRONTEND_URL` setting, and the `origin`
 * callback handed to the `cors` middleware.
 */
module Cors {
  import opened Wrappers
  import opened JsValues
  import opened Strings

  /** The one origin allowed when `FRONTEND_URL` is unset or empty. */
  const DefaultOrigin := "http://localhost:3001"
  /** The message of the error passed to the middleware for a refused origin. */
  const NotAllowedByCors := "Not allowed by CORS"

  /** What the `origin` callback reports: `callback(null, true)` or
      `callback(new Error(error))`. */
  datatype CorsVerdict = Allow | Reject(error: string)

  /** The allow-list for a `FRONTEND_URL` setting: the default origin alone
      when the setting is unset or empty; otherwise one entry per
      comma-separated piece of it, in order, each trimmed. Never empty. */
  function AllowedOrigins(frontendUrl: Option<string>): (origins: seq<string>)
    ensures |origins| >= 1
    ensures !Truthy(OfOptional(frontendUrl)) ==> origins == [DefaultOrigin]
    ensures Truthy(OfOptional(frontendUrl)) ==>
              && |origins| == multiset(frontendUrl.value)[','] + 1
              && |origins| == |Split(frontendUrl.value, ',')|
              && forall i :: 0 <= i < |origins| ==>
                   origins[i] == Trim(Split(frontendUrl.value, ',')[i])
  {
    if Truthy(OfOptional(frontendUrl)) then
      SplitCount(frontendUrl.value, ',');
      TrimAll(Split(frontendUrl.value, ','))
    else [DefaultOrigin]
  }

  /** The start-up code that assigns the allow-list once, in an if/else on
      the setting. */
  method LoadAllowedOrigins(frontendUrl: Option<string>) returns (allowedOrigins: seq<string>)
    ensures allowedOrigins == AllowedOrigins(frontendUrl)
  {
    allowedOrigins := [];
    if Truthy(OfOptional(frontendUrl)) {
      allowedOrigins := TrimAll(Split(frontendUrl.value, ','));
    } else {
      allowedOrigins := [DefaultOrigin];
    }
  }

  /** The `origin` callback: a request with no `Origin` header, or an empty
      one, is allowed; otherwise it is allowed exactly when the origin is on
      the list, and every other origin gets the "Not allowed by CORS" error. */
  function CheckOrigin(allowedOrigins: seq<string>, origin: Option<string>): (v: CorsVerdict)
    ensures v.Allow? <==> origin == None || origin == Some([]) || origin.value in allowedOrigins
    ensures v.Reject? ==> v == Reject(NotAllowedByCors)
  {
    if !Truthy(OfOptional(origin)) || IndexOf(allowedOrigins, origin.value) != -1 then Allow
    else Reject(NotAllowedByCors)
  }

  /** A setting written as comma-separated origins, with any whitespace
      around each, yields exactly those origins trimmed, in the order
      written. */
  lemma {:induction false} AllowedOriginsOfList(pieces: seq<string>)
    requires |pieces| >= 1
    requires forall i :: 0 <= i < |pieces| ==> ',' !in pieces[i]
    requires Join(pieces, ',') != []
    ensures AllowedOrigins(Some(Join(pieces, ','))) == TrimAll(pieces)
  {
    SplitJoin(pieces, ',');
  }

  /** With no setting, the gate lets through requests without an origin and
      those from the local development front end, and nothing else. */
  lemma DefaultGate(origin: Option<string>)
    ensures CheckOrigin(AllowedOrigins(None), origin).Allow?
            <==> origin == None || origin == Some([]) || origin == Some(DefaultOrigin)
  {
  }

  /** An origin containing a comma is refused whatever the setting: no entry
      of the allow-list can contain one. */
  lemma CommaOriginRejected(frontendUrl: Option<string>, origin: string)
    requires ',' in origin
    ensures CheckOrigin(AllowedOrigins(frontendUrl), Some(origin)) == Reject(NotAllowedByCors)
  {
    var origins := AllowedOrigins(frontendUrl);
    forall i | 0 <= i < |origins|
      ensures ',' !in origins[i]
    {
      if Truthy(OfOptional(frontendUrl)) {
        var piece := Split(frontendUrl.value, ',')[i];
        if ',' in Trim(piece) {
          TrimKeeps(piece, ',');
        }
      }
    }
  }

  /** An origin with no comma and no whitespace at either end. */
  predicate PlainOrigin(o: string)
  {
    o != [] && ',' !in o && !IsWhitespace(o[0]) && !IsWhitespace(o[|o| - 1])
  }

  /** A two-origin setting with a space after the comma, such as
      "https://a.example, https://b.example", yields both origins without
      the space. */
  lemma TwoOriginSetting(a: string, b: string)
    requires PlainOrigin(a) && PlainOrigin(b)
    ensures var origins := AllowedOrigins(Some(a + ", " + b));
            |origins| == 2 && origins[0] == a && origins[1] == b
  {
    var pieces := [a, [' '] + b];
    assert Join(pieces, ',') == a + ", " + b by {
      assert pieces[1..] == [[' '] + b];
      assert [','] + [' '] == ", ";
    }
    AllowedOriginsOfList(pieces);
    TrimPlain(a);
    TrimLeadingSpace(b);
  }

  lemma TrimPlain(o: string)
    requires PlainOrigin(o)
    ensures Trim(o) == o
  {
    TrimOf([], o, []);
    assert [] + o + [] == o;
  }

  /** Under such a setting both listed origins pass the gate, and any other
      non-empty origin is refused with the CORS error. */
  lemma TwoOriginGate(a: string, b: string, origin: string)
    requires PlainOrigin(a) && PlainOrigin(b)
    ensures CheckOrigin(AllowedOrigins(Some(a + ", " + b)), Some(origin))
            == if origin == [] || origin == a || origin == b then Allow else Reject(NotAllowedByCors)
  {
    TwoOriginSetting(a, b);
    InPair(AllowedOrigins(Some(a + ", " + b)), origin);
  }

  lemma InPair(xs: seq<string>, x: string)
    requires |xs| == 2
    ensures x in xs <==> x == xs[0] || x == xs[1]
  {
    assert xs == [xs[0], xs[1]];
  }
}
