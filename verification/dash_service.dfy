/** Sealing and expanding as the program's loops do it. */
module DashService {
  import opened Wrappers
  import opened DashStrings
  import opened DashMarkers
  import opened DashValues
  import opened DashTemplate

  /** Gives the fixed expressions their claim markers; fails where a marker left its URL component. */
  method PrepareReferences(text: string, markers: seq<Marker>, p: Parts, b: Bindings) returns (r: Result<Prepared>)
    ensures r == Prepare(markers, p, b, Prepared(text, [], []))
  {
    hide FixedValue, Marked, Count, ReplaceFirst, FixedMarker;
    var done: seq<Marker> := [];
    var claimText := text;
    var fixedValues: seq<string> := [];
    var index := 0;
    while index < |markers|
      invariant 0 <= index <= |markers|
      invariant Prepare(markers, p, b, Prepared(text, [], []))
             == Prepare(markers[index..], p, b, Prepared(claimText, done, fixedValues))
    {
      var marker := markers[index];
      assert markers[index..][0] == marker && markers[index..][1..] == markers[index + 1..];
      if marker.sentinel == "" || Marked(marker.sentinel, p) != 1 {
        return Err;
      }
      var inHost := Count(marker.sentinel, p.host);
      if marker.literal {
        if inHost != 0 {
          return Err;
        }
        done := done + [marker];
        index := index + 1;
        continue;
      }
      var fixed := FixedValue(marker.expression, b);
      if fixed.Err? {
        return Err;
      }
      if fixed.value.None? {
        if inHost != 0 {
          return Err;
        }
        done := done + [marker];
        index := index + 1;
        continue;
      }
      done := done + [marker.(fixed := true, fixedIndex := |fixedValues|)];
      claimText := ReplaceFirst(claimText, marker.sentinel, FixedMarker(|fixedValues|));
      fixedValues := fixedValues + [fixed.value.value];
      index := index + 1;
    }
    r := Ok(Prepared(claimText, done, fixedValues));
  }

  /** Puts the expressions and the literal-dollar markers back into the resolved URL. */
  method RestoreClaimMarkers(url: string, markers: seq<Marker>) returns (r: Result<Restored>)
    ensures r == Restore(markers, Restored(url, []))
  {
    hide Count, ReplaceFirst, FixedMarker, LiteralMarker;
    var value := url;
    var expressions: seq<string> := [];
    var index := 0;
    while index < |markers|
      invariant 0 <= index <= |markers|
      invariant Restore(markers, Restored(url, [])) == Restore(markers[index..], Restored(value, expressions))
    {
      var marker := markers[index];
      assert markers[index..][0] == marker && markers[index..][1..] == markers[index + 1..];
      if marker.fixed {
        if Count(FixedMarker(marker.fixedIndex), value) != 1 {
          return Err;
        }
        index := index + 1;
        continue;
      }
      if marker.sentinel == "" || Count(marker.sentinel, value) != 1 {
        return Err;
      }
      var replacement := LiteralMarker();
      if !marker.literal {
        replacement := "$" + marker.expression + "$";
        expressions := expressions + [marker.expression];
      }
      value := ReplaceFirst(value, marker.sentinel, replacement);
      index := index + 1;
    }
    r := Ok(Restored(value, expressions));
  }

  /** Reads the player's values out of the path segments behind the token. */
  method ReadValues(template: seq<string>, segments: seq<string>) returns (r: Result<seq<string>>)
    requires |template| == |segments|
    ensures r == Values(template, segments, 0, map[], [])
  {
    hide Identifier, ParsedValue, Itoa;
    var values: seq<string> := [];
    var consistent: map<string, nat> := map[];
    var index := 0;
    while index < |template|
      invariant 0 <= index <= |template|
      invariant Values(template, segments, 0, map[], [])
             == Values(template[index..], segments[index..], index, consistent, values)
    {
      assert template[index..][1..] == template[index + 1..] && segments[index..][1..] == segments[index + 1..];
      var prefix := "v" + Itoa(index) + "-";
      var identifier := Identifier(template[index]);
      if identifier.None? || !(prefix <= segments[index]) {
        return Err;
      }
      var value := segments[index][|prefix|..];
      var parsed := ParsedValue(template[index], value);
      if parsed.None? {
        return Err;
      }
      if identifier.value in consistent && consistent[identifier.value] != parsed.value {
        return Err;
      }
      consistent := consistent[identifier.value := parsed.value];
      values := values + [value];
      index := index + 1;
    }
    r := Ok(values);
  }

  function Appended(output: string, r: Result<string>): Result<string> {
    match r
    case Err => Err
    case Ok(tail) => Ok(output + tail)
  }

  /** Replaces the expressions in the claim one after the other, each searched for behind the last. */
  method InsertValues(target: string, template: seq<string>, values: seq<string>) returns (r: Result<string>)
    requires |template| == |values|
    ensures r == Substitute(target, template, values)
  {
    hide Find, Contains;
    var searchFrom := 0;
    var output := "";
    var index := 0;
    InsertStarts(target, template, values);
    while index < |template|
      invariant 0 <= index <= |template| && 0 <= searchFrom <= |target|
      invariant Substitute(target, template, values)
             == Appended(output, Substitute(target[searchFrom..], template[index..], values[index..]))
    {
      var needle := "$" + template[index] + "$";
      var relative := Find(needle, target[searchFrom..]);
      if relative < 0 {
        return Err;
      }
      var position := searchFrom + relative;
      assert target[searchFrom..][..relative] == target[searchFrom..position];
      if Contains(target[searchFrom..position], "$") {
        return Err;
      }
      InsertOne(output, target[searchFrom..], template[index..], values[index..]);
      assert target[searchFrom..][relative + |needle|..] == target[position + |needle|..];
      assert template[index..][1..] == template[index + 1..] && values[index..][1..] == values[index + 1..];
      output := output + target[searchFrom..position] + values[index];
      searchFrom := position + |needle|;
      index := index + 1;
    }
    if Contains(target[searchFrom..], "$") {
      return Err;
    }
    r := Ok(output + target[searchFrom..]);
  }

  lemma InsertStarts(target: string, template: seq<string>, values: seq<string>)
    requires |template| == |values|
    ensures Substitute(target, template, values)
         == Appended("", Substitute(target[0..], template[0..], values[0..]))
  {
    hide Substitute;
    assert target[0..] == target && template[0..] == template && values[0..] == values;
    var r := Substitute(target, template, values);
    if r.Ok? {
      assert "" + r.value == r.value;
    }
  }

  lemma InsertOne(output: string, rest: string, template: seq<string>, values: seq<string>)
    requires |template| == |values| > 0
    requires var i := Find("$" + template[0] + "$", rest); i >= 0 && !Contains(rest[..i], "$")
    ensures var needle := "$" + template[0] + "$"; var i := Find(needle, rest);
      Appended(output, Substitute(rest, template, values))
        == Appended(output + rest[..i] + values[0], Substitute(rest[i + |needle|..], template[1..], values[1..]))
  {
    hide Find, Contains;
    var needle := "$" + template[0] + "$";
    var i := Find(needle, rest);
    var tail := Substitute(rest[i + |needle|..], template[1..], values[1..]);
    if tail.Ok? {
      assert output + (rest[..i] + values[0] + tail.value) == (output + rest[..i] + values[0]) + tail.value;
    }
  }

  method RestoreFixedValues(target: string, fixed: seq<string>, p: Parts) returns (r: Result<string>)
    ensures r == RestoreFixed(target, p, fixed, 0)
  {
    hide ReplaceFirst, FixedMarker, Marked, ValidRepresentationId;
    var value := target;
    var index := 0;
    while index < |fixed|
      invariant 0 <= index <= |fixed|
      invariant RestoreFixed(target, p, fixed, 0) == RestoreFixed(value, p, fixed[index..], index)
    {
      assert fixed[index..][1..] == fixed[index + 1..];
      var valid := CheckRepresentationId(fixed[index]);
      if !valid {
        return Err;
      }
      var marker := FixedMarker(index);
      if Marked(marker, p) != 1 {
        return Err;
      }
      value := ReplaceFirst(value, marker, fixed[index]);
      index := index + 1;
    }
    r := Ok(value);
  }

  method ResolveCapabilityTarget(claims: Claims, suffix: string, net: Net) returns (r: Result<string>)
    ensures r == Expand(claims, suffix, net)
  {
    hide Substitute, Values, RestoreFixed, LiteralMarker, ReplaceAll, Split;
    var text := claims.target;
    if claims.template == [] {
      if suffix != "" {
        return Err;
      }
    } else {
      if |claims.template| > 64 || suffix == "" {
        return Err;
      }
      var segments := Split(suffix, '/');
      if |segments| != |claims.template| {
        return Err;
      }
      var values := ReadValues(claims.template, segments);
      if values.Err? {
        return Err;
      }
      if |values.value| != |claims.template| {
        return Err;
      }
      var inserted := InsertValues(claims.target, claims.template, values.value);
      if inserted.Err? {
        return Err;
      }
      text := inserted.value;
    }
    if claims.fixed != [] {
      if |claims.fixed| > 64 {
        return Err;
      }
      var p := net.parts(text);
      if p.None? {
        return Err;
      }
      var restored := RestoreFixedValues(text, claims.fixed, p.value);
      if restored.Err? {
        return Err;
      }
      text := restored.value;
    }
    var targetText := ReplaceAll(text, LiteralMarker(), "$");
    var target := net.normalize(targetText);
    if target.None? || (claims.fixed == [] && target.value != targetText) {
      return Err;
    }
    r := Ok(target.value);
  }
}
