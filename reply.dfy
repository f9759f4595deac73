/**
 * The handling every flow applies to the model's reply: the empty-reply check,
 * `JSON.parse`, and, for the three flows whose output is one string field, the
 * one-level coercion of an object to one of its alias members followed by the
 * string check of the output schema.
 *
 * `JSON.parse` is a parameter `parse` (None when it throws) and `JSON.stringify`
 * a parameter `stringify`; both are built-ins, and the contracts below hold
 * whatever they compute.
 */
module Reply {
  import opened Wrappers
  import opened Json
  import opened Errors

  /** The reply content, or EmptyResponse when it is absent or "" (both falsy). */
  function ReplyText(raw: Option<string>): (r: Result<string, Error>)
    ensures r.Err? <==> raw == None || raw == Some("")
    ensures r.Err? ==> r.error == EmptyResponse
    ensures r.Ok? ==> raw == Some(r.value) && r.value != ""
  {
    if raw == None || raw == Some("") then Err(EmptyResponse) else Ok(raw.value)
  }

  /** The parsed reply; the empty check comes first, so `parse` is never consulted on "". */
  function ParseReply(raw: Option<string>, parse: string -> Option<Json>): (r: Result<Json, Error>)
    ensures raw == None || raw == Some("") ==> r == Err(EmptyResponse)
    ensures raw.Some? && raw.value != "" ==>
      r == if parse(raw.value).Some? then Ok(parse(raw.value).value) else Err(MalformedReply)
  {
    var text :- ReplyText(raw);
    if parse(text).Some? then Ok(parse(text).value) else Err(MalformedReply)
  }

  /** `parsed.key`: a TypeError when the reply parsed to null, else the member or undefined. */
  function ReadProperty(j: Json, key: string): (r: Result<Option<Json>, Error>)
    ensures r.Err? <==> j == JNull
    ensures r.Err? ==> r.error == NullProperty(key)
    ensures r.Ok? ==> r.value == Get(j, key)
  {
    if j == JNull then Err(NullProperty(key)) else Ok(Get(j, key))
  }

  /** `obj[a0] || obj[a1] || ... || fallback`: the first truthy alias member, else the fallback. */
  function FirstTruthy(obj: Json, aliases: seq<string>, fallback: Json): (r: Json)
    ensures r == fallback || Truthy(Some(r))
    ensures aliases == [] ==> r == fallback
    ensures aliases != [] && Truthy(Get(obj, aliases[0])) ==> Some(r) == Get(obj, aliases[0])
    decreases |aliases|
  {
    if aliases == [] then fallback
    else if Truthy(Get(obj, aliases[0])) then Get(obj, aliases[0]).value
    else FirstTruthy(obj, aliases[1..], fallback)
  }

  /** Alias `i` is the first alias whose member is truthy. */
  predicate SelectsAlias(obj: Json, aliases: seq<string>, i: int)
  {
    && 0 <= i < |aliases|
    && Truthy(Get(obj, aliases[i]))
    && forall k :: 0 <= k < i ==> !Truthy(Get(obj, aliases[k]))
  }

  /** No alias member is truthy (each is missing, null, false, 0 or ""). */
  predicate NoTruthyAlias(obj: Json, aliases: seq<string>)
  {
    forall k :: 0 <= k < |aliases| ==> !Truthy(Get(obj, aliases[k]))
  }

  /** The `||` chain yields the member of the first truthy alias. */
  lemma {:induction false} FirstTruthySelects(obj: Json, aliases: seq<string>, fallback: Json, i: int)
    requires SelectsAlias(obj, aliases, i)
    ensures Some(FirstTruthy(obj, aliases, fallback)) == Get(obj, aliases[i])
    decreases |aliases|
  {
    if i > 0 {
      assert !Truthy(Get(obj, aliases[0]));
      assert SelectsAlias(obj, aliases[1..], i - 1) by {
        forall k | 0 <= k < i - 1 ensures !Truthy(Get(obj, aliases[1..][k])) {
          assert aliases[1..][k] == aliases[k + 1];
        }
      }
      FirstTruthySelects(obj, aliases[1..], fallback, i - 1);
    }
  }

  /** The `||` chain yields the fallback when no alias member is truthy. */
  lemma {:induction false} FirstTruthyFallback(obj: Json, aliases: seq<string>, fallback: Json)
    requires NoTruthyAlias(obj, aliases)
    ensures FirstTruthy(obj, aliases, fallback) == fallback
    decreases |aliases|
  {
    if aliases != [] {
      assert !Truthy(Get(obj, aliases[0]));
      assert NoTruthyAlias(obj, aliases[1..]) by {
        forall k | 0 <= k < |aliases| - 1 ensures !Truthy(Get(obj, aliases[1..][k])) {
          assert aliases[1..][k] == aliases[k + 1];
        }
      }
      FirstTruthyFallback(obj, aliases[1..], fallback);
    }
  }

  /** Either some alias is the first truthy one, or none is truthy. */
  lemma {:induction false} FirstTruthyExhaustive(obj: Json, aliases: seq<string>)
    ensures NoTruthyAlias(obj, aliases) || exists i :: SelectsAlias(obj, aliases, i)
    decreases |aliases|
  {
    if aliases != [] && !Truthy(Get(obj, aliases[0])) {
      FirstTruthyExhaustive(obj, aliases[1..]);
      if NoTruthyAlias(obj, aliases[1..]) {
        forall k | 0 <= k < |aliases| ensures !Truthy(Get(obj, aliases[k])) {
          if k > 0 { assert aliases[k] == aliases[1..][k - 1]; }
        }
      } else {
        var i :| SelectsAlias(obj, aliases[1..], i);
        forall k | 0 <= k < i + 1 ensures !Truthy(Get(obj, aliases[k])) {
          if k > 0 { assert aliases[k] == aliases[1..][k - 1]; }
        }
        assert aliases[i + 1] == aliases[1..][i];
        assert SelectsAlias(obj, aliases, i + 1);
      }
    } else if aliases != [] {
      assert SelectsAlias(obj, aliases, 0);
    }
  }

  /**
   * The rebinding under `typeof v === 'object' && v !== null`: an array or object
   * becomes its first truthy alias member, else the string `JSON.stringify(v)`;
   * any other value, and undefined, is left as it is.
   */
  function Coerce(v: Option<Json>, aliases: seq<string>, stringify: Json -> string): (r: Option<Json>)
    ensures !(v.Some? && IsObjectLike(v.value)) ==> r == v
    ensures v.Some? && IsObjectLike(v.value) ==> r.Some? && (r.value == JString(stringify(v.value)) || Truthy(r))
    ensures aliases == [] && v.Some? && IsObjectLike(v.value) ==> r == Some(JString(stringify(v.value)))
  {
    if v.Some? && IsObjectLike(v.value)
    then Some(FirstTruthy(v.value, aliases, JString(stringify(v.value))))
    else v
  }

  /** The issue `z.object({key: z.string()})` reports for a non-string `key`. */
  function NotAString(key: string): Error
  {
    SchemaValidation([Issue([Key(key)], InvalidType)])
  }

  /** `z.object({key: z.string()}).parse({key: v})`. */
  function ValidateString(v: Option<Json>, key: string): (r: Result<string, Error>)
    ensures r.Ok? <==> v.Some? && v.value.JString?
    ensures r.Ok? ==> v == Some(JString(r.value))
    ensures r.Err? ==> r.error == NotAString(key)
  {
    if v.Some? && v.value.JString? then Ok(v.value.s) else Err(NotAString(key))
  }

  /**
   * The strings the coercion-and-check accepts for a field value `v`, stated
   * without the `||` chain: a string as it is; for an array or object, the string
   * member of its first truthy alias, or `stringify` of the whole value when no
   * alias is truthy.
   */
  ghost predicate CoercesTo(v: Option<Json>, aliases: seq<string>, stringify: Json -> string, s: string)
  {
    || v == Some(JString(s))
    || (&& v.Some? && IsObjectLike(v.value)
        && ((exists i :: SelectsAlias(v.value, aliases, i) && Get(v.value, aliases[i]) == Some(JString(s)))
            || (NoTruthyAlias(v.value, aliases) && s == stringify(v.value))))
  }

  /** The reply is non-empty, parses to a value other than null, and its `key` coerces to `s`. */
  ghost predicate AcceptedAs(raw: Option<string>, parse: string -> Option<Json>, stringify: Json -> string,
                             key: string, aliases: seq<string>, s: string)
  {
    && raw.Some? && raw.value != ""
    && parse(raw.value).Some? && parse(raw.value).value != JNull
    && CoercesTo(Get(parse(raw.value).value, key), aliases, stringify, s)
  }

  /** The coercion-and-check as one value-level function. */
  function CoerceAndValidate(v: Option<Json>, aliases: seq<string>, stringify: Json -> string, key: string): (r: Result<string, Error>)
    ensures forall s :: r == Ok(s) <==> CoercesTo(v, aliases, stringify, s)
    ensures r.Err? ==> r.error == NotAString(key)
  {
    var c := Coerce(v, aliases, stringify);
    CoerceMeaning(v, aliases, stringify);
    ValidateString(c, key)
  }

  lemma CoerceMeaning(v: Option<Json>, aliases: seq<string>, stringify: Json -> string)
    ensures forall s :: Coerce(v, aliases, stringify) == Some(JString(s)) <==> CoercesTo(v, aliases, stringify, s)
  {
    if v.Some? && IsObjectLike(v.value) {
      var o := v.value;
      var fb := JString(stringify(o));
      FirstTruthyExhaustive(o, aliases);
      if NoTruthyAlias(o, aliases) {
        FirstTruthyFallback(o, aliases, fb);
        assert forall i :: !SelectsAlias(o, aliases, i);
      } else {
        var i :| SelectsAlias(o, aliases, i);
        FirstTruthySelects(o, aliases, fb, i);
        assert forall i' :: SelectsAlias(o, aliases, i') ==> i' == i;
      }
    }
  }

  /**
   * The reply handling of the three string-output flows: empty check, parse,
   * property read, coercion and string validation, each failing as the source does.
   */
  function NormalizeStringReply(raw: Option<string>, parse: string -> Option<Json>, stringify: Json -> string,
                                key: string, aliases: seq<string>): (r: Result<string, Error>)
    ensures raw == None || raw == Some("") ==> r == Err(EmptyResponse)
    ensures raw.Some? && raw.value != "" && parse(raw.value) == None ==> r == Err(MalformedReply)
    ensures raw.Some? && raw.value != "" && parse(raw.value) == Some(JNull) ==> r == Err(NullProperty(key))
    ensures forall s :: r == Ok(s) <==> AcceptedAs(raw, parse, stringify, key, aliases, s)
    ensures r.Err? ==> r.error in {EmptyResponse, MalformedReply, NullProperty(key), NotAString(key)}
    ensures raw.Some? && raw.value != "" && parse(raw.value).Some? && parse(raw.value).value != JNull && r.Err? ==>
              r == Err(NotAString(key))
  {
    var parsed :- ParseReply(raw, parse);
    var v :- ReadProperty(parsed, key);
    CoerceAndValidate(v, aliases, stringify, key)
  }

  /** A reply that is non-empty and parses to `j`, which is not null. */
  predicate ParsesTo(raw: Option<string>, parse: string -> Option<Json>, j: Json)
  {
    raw.Some? && raw.value != "" && parse(raw.value) == Some(j) && j != JNull
  }

  /** A field that is already a string is returned unchanged. */
  lemma StringFieldUnchanged(raw: Option<string>, parse: string -> Option<Json>, stringify: Json -> string,
                             key: string, aliases: seq<string>, j: Json, s: string)
    requires ParsesTo(raw, parse, j) && Get(j, key) == Some(JString(s))
    ensures NormalizeStringReply(raw, parse, stringify, key, aliases) == Ok(s)
  {
    assert CoercesTo(Get(j, key), aliases, stringify, s);
  }

  /**
   * An array or object field is replaced by the member of its first truthy
   * alias, and only one level deep: that member must itself be a string.
   */
  lemma FirstTruthyAliasTaken(raw: Option<string>, parse: string -> Option<Json>, stringify: Json -> string,
                              key: string, aliases: seq<string>, j: Json, o: Json, i: int)
    requires ParsesTo(raw, parse, j) && Get(j, key) == Some(o) && IsObjectLike(o)
    requires SelectsAlias(o, aliases, i)
    ensures Get(o, aliases[i]).value.JString? ==>
      NormalizeStringReply(raw, parse, stringify, key, aliases) == Ok(Get(o, aliases[i]).value.s)
    ensures !Get(o, aliases[i]).value.JString? ==>
      NormalizeStringReply(raw, parse, stringify, key, aliases) == Err(NotAString(key))
  {
    FirstTruthySelects(o, aliases, JString(stringify(o)), i);
  }

  /** An array or object field with no truthy alias becomes `stringify` of itself and validates. */
  lemma NoAliasStringified(raw: Option<string>, parse: string -> Option<Json>, stringify: Json -> string,
                           key: string, aliases: seq<string>, j: Json, o: Json)
    requires ParsesTo(raw, parse, j) && Get(j, key) == Some(o) && IsObjectLike(o)
    requires NoTruthyAlias(o, aliases)
    ensures NormalizeStringReply(raw, parse, stringify, key, aliases) == Ok(stringify(o))
  {
    FirstTruthyFallback(o, aliases, JString(stringify(o)));
  }

  /** A missing, null, boolean or numeric field is not coerced and fails validation. */
  lemma ScalarFieldRejected(raw: Option<string>, parse: string -> Option<Json>, stringify: Json -> string,
                            key: string, aliases: seq<string>, j: Json)
    requires ParsesTo(raw, parse, j)
    requires Get(j, key) == None || Get(j, key).value.JNull? || Get(j, key).value.JBool? || Get(j, key).value.JNumber?
    ensures NormalizeStringReply(raw, parse, stringify, key, aliases) == Err(NotAString(key))
  {
  }

  /** Only the field `key` of the reply matters: every other member is discarded. */
  lemma OtherMembersIgnored(raw1: Option<string>, raw2: Option<string>, parse: string -> Option<Json>,
                            stringify: Json -> string, key: string, aliases: seq<string>, j1: Json, j2: Json)
    requires ParsesTo(raw1, parse, j1) && ParsesTo(raw2, parse, j2)
    requires Get(j1, key) == Get(j2, key)
    ensures NormalizeStringReply(raw1, parse, stringify, key, aliases)
         == NormalizeStringReply(raw2, parse, stringify, key, aliases)
  {
  }
}
