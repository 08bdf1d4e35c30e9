/** The URL <-> filename codec of the web fetcher: percent-encoding as in
    section 2.1 of RFC 3986 with no byte exempted beyond the unreserved set of
    section 2.3 (Python's `quote(url, safe="")`), and its decoder (`unquote`).
    A URL is given by its UTF-8 bytes, one character per byte. */
module WebSearch {

  import opened Base

  /** One byte of the UTF-8 form of a URL. */
  type Byte = c: char | (c as int) < 256 witness 'a'

  /** ALPHA / DIGIT / "-" / "." / "_" / "~" (section 2.3 of RFC 3986). */
  predicate Unreserved(c: char)
  {
    ('A' <= c <= 'Z') || ('a' <= c <= 'z') || ('0' <= c <= '9')
    || c == '-' || c == '.' || c == '_' || c == '~'
  }

  /** The encoding of one byte: itself when unreserved, otherwise `%` and its
      value as two upper-case hex digits. */
  function EncodeByte(b: Byte): (r: string)
    ensures Unreserved(b) ==> r == [b]
    ensures !Unreserved(b) ==>
      |r| == 3 && r[0] == '%' && IsUpperHex(r[1]) && IsUpperHex(r[2])
      && 16 * HexValue(r[1]) + HexValue(r[2]) == b as int
  {
    if Unreserved(b) then [b]
    else ['%', UpperHexDigit(b as int / 16), UpperHexDigit(b as int % 16)]
  }

  /** `encode_url_to_filename`: `urllib.parse.quote(url, safe="")`. */
  function EncodeUrlToFilename(url: seq<Byte>): (r: string)
    ensures |r| >= |url|
    ensures |r| == |url| <==> forall i :: 0 <= i < |url| ==> Unreserved(url[i])
  {
    if |url| == 0 then ""
    else
      var rest := EncodeUrlToFilename(url[1..]);
      assert forall i :: 1 <= i < |url| ==> url[1..][i - 1] == url[i];
      EncodeByte(url[0]) + rest
  }

  /** `decode_filename_to_url`: `urllib.parse.unquote(name)`. A `%` followed by
      two hex digits becomes the byte they spell; any other `%` stays. */
  function DecodeFilenameToUrl(name: string): (r: string)
    ensures |r| <= |name| <= 3 * |r|
  {
    if |name| == 0 then ""
    else if name[0] == '%' && |name| >= 3 && IsHex(name[1]) && IsHex(name[2]) then
      [(16 * HexValue(name[1]) + HexValue(name[2])) as char] + DecodeFilenameToUrl(name[3..])
    else [name[0]] + DecodeFilenameToUrl(name[1..])
  }

  /** POSIX `os.path.join(folder, name)`. */
  function JoinPath(folder: string, name: string): (r: string)
    ensures |r| >= |name| && r[|r| - |name|..] == name
    ensures |name| > 0 && name[0] == '/' ==> r == name
    ensures !(|name| > 0 && name[0] == '/') ==> |r| >= |folder| && r[..|folder|] == folder
  {
    if |name| > 0 && name[0] == '/' then name
    else if |folder| == 0 || folder[|folder| - 1] == '/' then folder + name
    else folder + "/" + name
  }

  lemma DecodeEncodedByte(b: Byte, rest: string)
    ensures DecodeFilenameToUrl(EncodeByte(b) + rest) == [b] + DecodeFilenameToUrl(rest)
  {
    var e := EncodeByte(b) + rest;
    if Unreserved(b) {
      assert e[1..] == rest;
    } else {
      assert e[3..] == rest;
    }
  }

  /** Decoding a filename made from a URL gives back the URL. */
  lemma {:induction false} DecodeEncode(url: seq<Byte>)
    ensures DecodeFilenameToUrl(EncodeUrlToFilename(url)) == url
  {
    if |url| > 0 {
      DecodeEncodedByte(url[0], EncodeUrlToFilename(url[1..]));
      DecodeEncode(url[1..]);
      assert [url[0]] + url[1..] == url;
    }
  }

  /** Distinct URLs are stored under distinct filenames. */
  lemma EncodeInjective(u: seq<Byte>, v: seq<Byte>)
    requires EncodeUrlToFilename(u) == EncodeUrlToFilename(v)
    ensures u == v
  {
    DecodeEncode(u);
    DecodeEncode(v);
  }

  /** The shape of every name the encoder produces: each character is
      unreserved or a `%`, and each `%` starts an escape of two upper-case hex
      digits. */
  predicate IsEncodedName(e: string)
  {
    && (forall i :: 0 <= i < |e| ==> Unreserved(e[i]) || e[i] == '%')
    && (forall i :: 0 <= i < |e| && e[i] == '%' ==>
          i + 2 < |e| && IsUpperHex(e[i + 1]) && IsUpperHex(e[i + 2]))
  }

  lemma {:induction false} EncodedAlphabet(url: seq<Byte>)
    ensures IsEncodedName(EncodeUrlToFilename(url))
  {
    if |url| > 0 {
      EncodedAlphabet(url[1..]);
      var h, t := EncodeByte(url[0]), EncodeUrlToFilename(url[1..]);
      var e := EncodeUrlToFilename(url);
      assert e == h + t;
      forall i | 0 <= i < |e|
        ensures Unreserved(e[i]) || e[i] == '%'
        ensures e[i] == '%' ==> i + 2 < |e| && IsUpperHex(e[i + 1]) && IsUpperHex(e[i + 2])
      {
        if i >= |h| {
          var j := i - |h|;
          assert e[i] == t[j];
          if e[i] == '%' {
            assert e[i + 1] == t[j + 1] && e[i + 2] == t[j + 2];
          }
        } else if Unreserved(url[0]) {
          assert e[i] == url[0];
        } else {
          assert e[0] == '%' && e[1] == h[1] && e[2] == h[2];
        }
      }
    }
  }

  /** Joining the download folder and an encoded URL appends exactly the
      encoded name: the join never sees a leading `/`, and the name holds no
      `/`. (For the URLs `.` and `..` that name is itself `.` or `..`; see
      `DotNames`.) */
  lemma FilenameIsOneComponent(folder: string, url: seq<Byte>)
    ensures var e := EncodeUrlToFilename(url);
      var p := JoinPath(folder, e);
      '/' !in e && |p| >= |e| && p[|p| - |e|..] == e
      && (p[..|p| - |e|] == folder || p[..|p| - |e|] == folder + "/")
  {
    var e := EncodeUrlToFilename(url);
    EncodedAlphabet(url);
    assert '/' !in e by {
      forall i | 0 <= i < |e| ensures e[i] != '/' {
        assert Unreserved(e[i]) || e[i] == '%';
      }
    }
    var p := JoinPath(folder, e);
    if |e| > 0 {
      assert e[0] != '/';
    }
    if |folder| == 0 || folder[|folder| - 1] == '/' {
      assert p == folder + e;
      assert p[..|p| - |e|] == folder;
    } else {
      assert p == (folder + "/") + e;
      assert p[..|p| - |e|] == folder + "/";
    }
  }

  /** The URLs `.` and `..` hold only unreserved bytes, so they are stored
      under the names `.` and `..`: joined to the download folder, these name
      the folder itself and its parent. No other URL gets either name. */
  lemma DotNames(url: seq<Byte>)
    ensures EncodeUrlToFilename(url) == "." <==> url == ['.']
    ensures EncodeUrlToFilename(url) == ".." <==> url == ['.', '.']
    ensures JoinPath("./downloaded", EncodeUrlToFilename(['.', '.'])) == "./downloaded/.."
  {
    var dot: seq<Byte> := ['.'];
    var dotdot: seq<Byte> := ['.', '.'];
    assert EncodeUrlToFilename(dot) == ".";
    assert EncodeUrlToFilename(dotdot) == "..";
    if EncodeUrlToFilename(url) == "." {
      EncodeInjective(url, dot);
    }
    if EncodeUrlToFilename(url) == ".." {
      EncodeInjective(url, dotdot);
    }
  }

  /** A name without `%` is its own decoding. */
  lemma {:induction false} DecodeWithoutPercent(name: string)
    requires '%' !in name
    ensures DecodeFilenameToUrl(name) == name
  {
    if |name| > 0 {
      DecodeWithoutPercent(name[1..]);
      assert [name[0]] + name[1..] == name;
    }
  }

  /** A `%`-free prefix passes through decoding unchanged and does not
      interact with what follows it. */
  lemma {:induction false} DecodeAfterPlainPrefix(prefix: string, rest: string)
    requires '%' !in prefix
    ensures DecodeFilenameToUrl(prefix + rest) == prefix + DecodeFilenameToUrl(rest)
  {
    if |prefix| > 0 {
      assert (prefix + rest)[1..] == prefix[1..] + rest;
      DecodeAfterPlainPrefix(prefix[1..], rest);
      assert [prefix[0]] + prefix[1..] == prefix;
    } else {
      assert prefix + rest == rest;
    }
  }
}
