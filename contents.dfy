/** What the built request carries, read back with the query-string reader:
    which parameters, in which order, with which values. */
module RequestContents {
  import opened QueryStrings
  import opened Request

  /** The endpoint has no query of its own. */
  lemma BaseUrlHasNoQuery()
    ensures '?' !in BaseUrl
  {
  }

  /** The fixed part of every request, followed by the marker when `marked`. */
  function FixedFields(marked: bool): seq<string>
  {
    if marked then ["days=1", "aqi=no", "alerts=no", "a=1"] else ["days=1", "aqi=no", "alerts=no"]
  }

  function FixedParams(marked: bool): seq<Param>
  {
    if marked then [Param("days", "1"), Param("aqi", "no"), Param("alerts", "no"), Param("a", "1")]
    else [Param("days", "1"), Param("aqi", "no"), Param("alerts", "no")]
  }

  /** A field written `name=value`, with no `=` in the name and no `&` anywhere. */
  predicate Spells(field: string, p: Param)
  {
    field == p.name + "=" + p.value && '=' !in p.name && '&' !in field
  }

  /** Spelling one more field in front. */
  lemma SpellsCons(field: string, p: Param, fields: seq<string>, params: seq<Param>)
    requires Spells(field, p) && SpellsParams(fields, params)
    ensures SpellsParams([field] + fields, [p] + params)
  {
    assert ([field] + fields)[1..] == fields && ([p] + params)[1..] == params;
  }

  /** Three or four spelled fields, generically. */
  lemma SpellsListed(a: string, b: string, c: string, d: string, pa: Param, pb: Param, pc: Param, pd: Param, marked: bool)
    requires Spells(a, pa) && Spells(b, pb) && Spells(c, pc) && Spells(d, pd)
    ensures SpellsParams(if marked then [a, b, c, d] else [a, b, c],
                         if marked then [pa, pb, pc, pd] else [pa, pb, pc])
  {
    var last, lastParams := if marked then [c, d] else [c], if marked then [pc, pd] else [pc];
    if marked {
      SpellsCons(d, pd, [], []);
      SpellsCons(c, pc, [d], [pd]);
    } else {
      SpellsCons(c, pc, [], []);
    }
    SpellsCons(b, pb, last, lastParams);
    SpellsCons(a, pa, [b] + last, [pb] + lastParams);
  }

  lemma DaysSpelled()
    ensures Spells("days=1", Param("days", "1"))
  {
  }

  lemma AqiSpelled()
    ensures Spells("aqi=no", Param("aqi", "no"))
  {
  }

  lemma AlertsSpelled()
    ensures Spells("alerts=no", Param("alerts", "no"))
  {
  }

  lemma MarkerSpelled()
    ensures Spells("a=1", Param("a", "1"))
  {
  }

  lemma FixedFieldsSpelled(marked: bool)
    ensures SpellsParams(FixedFields(marked), FixedParams(marked))
  {
    DaysSpelled();
    AqiSpelled();
    AlertsSpelled();
    MarkerSpelled();
    SpellsListed("days=1", "aqi=no", "alerts=no", "a=1",
                 Param("days", "1"), Param("aqi", "no"), Param("alerts", "no"), Param("a", "1"), marked);
  }

  /** The fixed tail and the marker, written out field by field. */
  lemma TailSpelledOut()
    ensures "&days=1&aqi=no&alerts=no" == "&" + "days=1" + "&" + "aqi=no" + "&" + "alerts=no"
    ensures "&a=1" == "&" + "a=1"
  {
  }

  /** Joining three or four fields, generically. */
  lemma JoinedTail(tail: string, mark: string, a: string, b: string, c: string, d: string, marked: bool)
    requires tail == "&" + a + "&" + b + "&" + c && mark == "&" + d
    ensures tail + (if marked then mark else "") == "&" + Join(if marked then [a, b, c, d] else [a, b, c], '&')
  {
    JoinCons(b, [c], '&');
    JoinCons(a, [b, c], '&');
    if marked {
      JoinCons(c, [d], '&');
      JoinCons(b, [c, d], '&');
      JoinCons(a, [b, c, d], '&');
    }
  }

  lemma FixedFieldsJoined(marked: bool)
    ensures "&days=1&aqi=no&alerts=no" + (if marked then "&a=1" else "") == "&" + Join(FixedFields(marked), '&')
  {
    TailSpelledOut();
    JoinedTail("&days=1&aqi=no&alerts=no", "&a=1", "days=1", "aqi=no", "alerts=no", "a=1", marked);
  }

  /** How the literal pieces of the URL split. */
  lemma LiteralPieces()
    ensures "?key=" == "?" + "key=" && "key=" == "key" + "="
    ensures "&q=" == "&" + "q=" && "q=" == "q" + "="
  {
  }

  /** Regrouping `path?key=K&J` around its `?` and first `&`. */
  lemma RegroupKeyed(path: string, key: string, joined: string)
    ensures path + "?key=" + key + "&" + joined == path + "?" + ("key=" + key + "&" + joined)
    ensures "key=" + key == "key" + "=" + key
  {
    LiteralPieces();
  }

  /** Reads back `path?key=K&...` where the rest spells the given parameters. */
  lemma ReadBackKeyed(path: string, key: string, rest: seq<string>, params: seq<Param>)
    requires '?' !in path && '&' !in key
    requires |rest| >= 1 && SpellsParams(rest, params)
    ensures Params(path + "?key=" + key + "&" + Join(rest, '&')) == [Param("key", key)] + params
  {
    var fields := ["key=" + key] + rest;
    JoinCons("key=" + key, rest, '&');
    RegroupKeyed(path, key, Join(rest, '&'));
    assert fields[1..] == rest && ([Param("key", key)] + params)[1..] == params;
    assert SpellsParams(fields, [Param("key", key)] + params);
    ReadBackFields(path, fields, [Param("key", key)] + params);
  }

  lemma ParamsWithoutLocation(key: string, displayAll: bool)
    requires '&' !in key
    ensures Params(RequestUrl(key, "", displayAll)) == [Param("key", key)] + FixedParams(false)
  {
    FixedFieldsSpelled(false);
    FixedFieldsJoined(false);
    BaseUrlHasNoQuery();
    assert RequestUrl(key, "", displayAll) == BaseUrl + "?key=" + key + "&" + Join(FixedFields(false), '&');
    ReadBackKeyed(BaseUrl, key, FixedFields(false), FixedParams(false));
  }

  /** Regrouping concatenations around a split separator, with every piece a variable. */
  lemma RegroupPieces(pre: string, ampQ: string, amp: string, qEq: string, q: string, tail: string, mark: string, joined: string)
    requires ampQ == amp + qEq && tail + mark == amp + joined
    ensures pre + ampQ + q + tail + mark == pre + amp + (qEq + q + amp + joined)
  {
    calc {
      pre + ampQ + q + tail + mark;
      pre + amp + qEq + q + (tail + mark);
      pre + amp + (qEq + q + amp + joined);
    }
  }

  /** Moving the location field into the joined list. */
  lemma LocatedShape(path: string, key: string, q: string, tail: string, mark: string, fixed: seq<string>)
    requires |fixed| >= 1 && tail + mark == "&" + Join(fixed, '&')
    ensures path + "?key=" + key + "&q=" + q + tail + mark == path + "?key=" + key + "&" + Join(["q=" + q] + fixed, '&')
  {
    JoinCons("q=" + q, fixed, '&');
    LiteralPieces();
    RegroupPieces(path + "?key=" + key, "&q=", "&", "q=", q, tail, mark, Join(fixed, '&'));
  }

  lemma ParamsWithLocation(key: string, q: string, displayAll: bool)
    requires '&' !in key && '&' !in q && q != ""
    ensures Params(RequestUrl(key, q, displayAll)) == [Param("key", key), Param("q", q)] + FixedParams(displayAll)
  {
    var fixed := FixedFields(displayAll);
    FixedFieldsSpelled(displayAll);
    FixedFieldsJoined(displayAll);
    BaseUrlHasNoQuery();
    LocatedShape(BaseUrl, key, q, "&days=1&aqi=no&alerts=no", if displayAll then "&a=1" else "", fixed);
    LiteralPieces();
    SpellsCons("q=" + q, Param("q", q), fixed, FixedParams(displayAll));
    ReadBackKeyed(BaseUrl, key, ["q=" + q] + fixed, [Param("q", q)] + FixedParams(displayAll));
  }

  /** Read back, the request carries exactly: the key, the location when it is
      non-empty, the three fixed parameters, and the all-hours marker only when
      the location is non-empty and all hours were asked for. The program does
      not escape the key or the location, so this holds when neither holds `&`. */
  lemma RequestParams(key: string, q: string, displayAll: bool)
    requires '&' !in key && '&' !in q
    ensures Params(RequestUrl(key, q, displayAll))
      == [Param("key", key)] + (if q != "" then [Param("q", q)] else [])
         + [Param("days", "1"), Param("aqi", "no"), Param("alerts", "no")]
         + (if q != "" && displayAll then [Param("a", "1")] else [])
  {
    if q == "" {
      ParamsWithoutLocation(key, displayAll);
    } else {
      ParamsWithLocation(key, q, displayAll);
    }
  }

  /** With no location the request has no `q` parameter and no marker, whatever the flag. */
  lemma NoLocationNoMarker(key: string, displayAll: bool)
    requires '&' !in key
    ensures forall p :: p in Params(RequestUrl(key, "", displayAll)) ==> p.name != "q" && p.name != "a"
    ensures Params(RequestUrl(key, "", true)) == Params(RequestUrl(key, "", false))
  {
    RequestParams(key, "", displayAll);
    RequestParams(key, "", true);
    RequestParams(key, "", false);
  }

  /** The fixed parameters are named neither `key` nor `q`; the marker is among them exactly when asked for. */
  lemma FixedNames(marked: bool)
    ensures forall p :: p in FixedParams(marked) ==> p.name != "key" && p.name != "q"
    ensures Param("a", "1") in FixedParams(marked) <==> marked
  {
  }

  /** With a location the request names it once, and carries the marker exactly
      when all hours were asked for. */
  lemma LocationAndMarker(key: string, q: string, displayAll: bool)
    requires '&' !in key && '&' !in q && q != ""
    ensures Param("q", q) in Params(RequestUrl(key, q, displayAll))
    ensures forall p :: p in Params(RequestUrl(key, q, displayAll)) && p.name == "q" ==> p.value == q
    ensures Param("a", "1") in Params(RequestUrl(key, q, displayAll)) <==> displayAll
  {
    ParamsWithLocation(key, q, displayAll);
    FixedNames(displayAll);
    assert "a" != "key" && "a" != "q" && "key" != "q";
  }
}
