/**
 * The allowed CORS origins (ai-recrutement-backend/app/core/config.py): a
 * comma-separated setting read into a list of origins.
 */
module Config {
  import opened Strings

  /** The default `CORS_ORIGINS` setting, written as its three origins
      joined by commas. */
  const DefaultCorsOrigins := "http://localhost:5173" + "," + "http://localhost:3000" + "," + "http://localhost:8501"

  /** The stripped pieces that are not empty, in order. */
  function Origins(pieces: seq<string>): (r: seq<string>)
    ensures |r| <= |pieces|
    ensures AllClean(r)
  {
    if pieces == [] then []
    else
      var o := Strip(pieces[0]);
      var head := if o != "" then [o] else [];
      AllCleanAppend(head, Origins(pieces[1..]));
      head + Origins(pieces[1..])
  }

  /** `Settings.cors_list`. */
  function CorsList(setting: string): (r: seq<string>)
    ensures AllClean(r)
    ensures forall i :: 0 <= i < |r| ==> ',' !in r[i]
  {
    var pieces := Split(setting, ',');
    SplitJoin(setting, ',');
    OriginsWithout(pieces, ',');
    Origins(pieces)
  }

  /** Stripping adds no character. */
  lemma StripAddsNothing(s: string, c: char)
    requires c !in s
    ensures c !in Strip(s)
  {
    var t := TrimLeft(s);
    assert c !in t;
  }

  /** A character no piece holds is in no origin. */
  lemma {:induction false} OriginsWithout(pieces: seq<string>, c: char)
    requires forall i :: 0 <= i < |pieces| ==> c !in pieces[i]
    ensures forall i :: 0 <= i < |Origins(pieces)| ==> c !in Origins(pieces)[i]
  {
    if pieces != [] {
      StripAddsNothing(pieces[0], c);
      OriginsWithout(pieces[1..], c);
    }
  }

  /** The origins of two lists of pieces are those of each, in order. */
  lemma {:induction false} OriginsAppend(a: seq<string>, b: seq<string>)
    ensures Origins(a + b) == Origins(a) + Origins(b)
  {
    if a != [] {
      assert (a + b)[0] == a[0];
      assert (a + b)[1..] == a[1..] + b;
      OriginsAppend(a[1..], b);
    } else {
      assert a + b == b;
    }
  }

  /** Origins keep the order of the setting: joining two settings with a
      comma lists the first one's origins, then the second one's. */
  lemma CorsConcat(a: string, b: string)
    ensures CorsList(a + "," + b) == CorsList(a) + CorsList(b)
  {
    SplitConcat(a, b, ',');
    assert a + "," + b == a + [','] + b;
    OriginsAppend(Split(a, ','), Split(b, ','));
  }

  /** A setting with no comma and no surrounding whitespace is one origin. */
  lemma CorsSingle(s: string)
    requires s != [] && ',' !in s && IsStripped(s)
    ensures CorsList(s) == [s]
  {
    SplitNoSep(s, ',');
    StripStripped(s);
    assert Origins([s]) == [Strip(s)] + Origins([]);
  }

  /** Three clean origins joined by commas read back as those three. */
  lemma ThreeOrigins(x: string, y: string, z: string)
    requires x != [] && ',' !in x && IsStripped(x)
    requires y != [] && ',' !in y && IsStripped(y)
    requires z != [] && ',' !in z && IsStripped(z)
    ensures CorsList(x + "," + y + "," + z) == [x, y, z]
  {
    CorsConcat(x + "," + y, z);
    CorsConcat(x, y);
    CorsSingle(x);
    CorsSingle(y);
    CorsSingle(z);
  }

  /** The default setting allows exactly the three local front ends. */
  lemma DefaultOrigins()
    ensures CorsList(DefaultCorsOrigins)
      == ["http://localhost:5173", "http://localhost:3000", "http://localhost:8501"]
  {
    var x, y, z := "http://localhost:5173", "http://localhost:3000", "http://localhost:8501";
    assert DefaultCorsOrigins == x + "," + y + "," + z;
    ThreeOrigins(x, y, z);
  }
}
