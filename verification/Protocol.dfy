// The records of parser.h, and snprintf into a buffer of n bytes.
module Protocol {
  /** What protocol holds for the commands modelled here; strings are without their final NUL. */
  datatype Record = Record(accion: string, usuario: string, ip: string, puerto: string, status: string,
                           usuario2: string, message: string, fd: int)

  /** s is a C string that fits an array of n chars. */
  predicate Fits(s: string, n: nat) { |s| < n && '\0' !in s }

  predicate FieldsFit(r: Record) {
    && Fits(r.accion, 3) && Fits(r.usuario, 50) && Fits(r.ip, 50) && Fits(r.puerto, 10)
    && Fits(r.status, 50) && Fits(r.usuario2, 50) && Fits(r.message, 200)
  }

  type Request = r: Record | FieldsFit(r) witness Record("", "", "", "", "", "", "", 0)

  /** The size of the buffers that server and client print into. */
  const BUFFER := 1024

  /** The contents of a buffer of n bytes after snprintf(buffer, n, ...) of the text s. */
  function Snprintf(s: string, n: nat): (t: string)
    requires 0 < n
    ensures t <= s && |t| < n && (|t| < n - 1 ==> t == s)
  {
    if |s| < n then s else s[..n - 1]
  }

  /** The whole buffer of n bytes, cleared before the text was put into it. */
  function Padded(s: string, n: nat): (t: string)
    requires |s| <= n
    ensures s <= t && |t| == n && forall i | |s| <= i < n :: t[i] == '\0'
  {
    s + seq(n - |s|, _ => '\0')
  }
}
