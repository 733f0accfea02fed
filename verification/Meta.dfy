/** Object metadata and its JSON sidecar file: crates/storage/src/meta.rs, crates/storage/src/etag.rs. */
module Meta {
  import opened Wrappers
  import opened Bytes
  import opened KeyEncoding

  /** MD5 as a symbol: the digest of these bytes. A multipart upload appends its number of parts. */
  datatype ETag = Md5(of: Str) | Md5Parts(of: Str, parts: nat)

  /** The incremental hasher; after updates with chunks it has been fed their concatenation. */
  datatype Hasher = Hasher(fed: Str) {
    function Update(chunk: Str): Hasher {
      Hasher(fed + chunk)
    }

    function Finalize(): ETag {
      Md5(fed)
    }
  }

  datatype ObjectMeta = ObjectMeta(key: Str, size: nat, contentType: Str, etag: ETag, lastModified: int)

  /** The content of a sidecar file: part of a JSON text, or all of it. */
  datatype Sidecar = Torn | Json(meta: ObjectMeta)

  /** `<encoded-key>.json` */
  function SidecarName(encoded: Str): Str {
    encoded + [46, 106, 115, 111, 110]
  }

  /** The name before ".json". */
  function Stem(file: Str): Str {
    if |file| >= 5 then file[..|file| - 5] else []
  }

  lemma StemOfSidecar(name: Str)
    ensures Stem(SidecarName(name)) == name
  {
  }

  /** `read_sidecar`: no file is no such key, a torn one does not parse. */
  function ReadSidecar(files: map<Str, Sidecar>, name: Str): Result<ObjectMeta> {
    if name !in files then Failure(NoSuchKey)
    else if files[name].Torn? then Failure(Io)
    else Success(files[name].meta)
  }

  /** Temp files never collide with object files or sidecars. */
  lemma NamesApart(key: Str, tmp: Str)
    requires EncodeKey(key).Success? && IsTempName(tmp)
    ensures tmp != EncodeKey(key).value && tmp != SidecarName(EncodeKey(key).value)
  {
    EncodedNames(key, key);
    var encoded := EncodeKey(key).value;
    assert encoded == [] ==> SidecarName(encoded)[1] == 106;
    assert encoded != [] ==> SidecarName(encoded)[0] == encoded[0] && encoded[0] in encoded;
  }

  lemma SidecarNoTemp(name: Str)
    ensures !IsTempName(SidecarName(name))
  {
    var file := SidecarName(name);
    assert file[|name|] == DOT && file[|name| + 1] == 106;
  }
}
