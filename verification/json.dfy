/** The part of a Qt JSON value that the plugin ever looks at. */
module Json {

  /** `isString()`, `isObject()` and `isArray()` are the only tests the plugin
      applies to a value; numbers, booleans, null and undefined all fall into
      `JOther`. An object is a map, so its keys are unique, as in `QJsonObject`. */
  datatype Value =
    | JString(str: string)
    | JObject(fields: map<string, Value>)
    | JArray(items: seq<Value>)
    | JOther
}
