/** Shared option type and the character patterns the evidence tools accept. */
module Patterns {

  datatype Option<+T> = None | Some(value: T)

  predicate IsHexDigit(c: char) {
    '0' <= c <= '9' || 'a' <= c <= 'f'
  }

  predicate IsAlphanumeric(c: char) {
    'A' <= c <= 'Z' || 'a' <= c <= 'z' || '0' <= c <= '9'
  }

  /** Exactly `n` lowercase hexadecimal digits. */
  predicate IsHex(s: string, n: nat) {
    |s| == n && forall i :: 0 <= i < n ==> IsHexDigit(s[i])
  }

  predicate IsCutoverId(s: string) { IsHex(s, 32) }

  predicate IsRevision(s: string) { IsHex(s, 40) }

  predicate IsSha256(s: string) { IsHex(s, 64) }

  predicate IsSnapshotId(s: string) { IsHex(s, 64) }

  /** `[A-Za-z0-9][A-Za-z0-9.-]{0,126}` */
  predicate IsRunId(s: string) {
    && 1 <= |s| <= 127
    && IsAlphanumeric(s[0])
    && forall i :: 0 <= i < |s| ==> IsAlphanumeric(s[i]) || s[i] == '.' || s[i] == '-'
  }

  predicate IsSafeChar(c: char) {
    || IsAlphanumeric(c)
    || c == '_' || c == '.' || c == ':' || c == '@' || c == '/' || c == '+' || c == ',' || c == '-'
  }

  /** `[A-Za-z0-9_.:@/+,-]{1,512}` */
  predicate IsSafeValue(s: string) {
    1 <= |s| <= 512 && forall i :: 0 <= i < |s| ==> IsSafeChar(s[i])
  }

  /** `[a-z][a-z0-9_]{0,63}` */
  predicate IsFieldName(s: string) {
    && 1 <= |s| <= 64
    && 'a' <= s[0] <= 'z'
    && forall i :: 0 <= i < |s| ==> 'a' <= s[i] <= 'z' || '0' <= s[i] <= '9' || s[i] == '_'
  }

  /** `restic-restore-[A-Za-z0-9.-]{1,180}[.]ok` */
  predicate IsRecoveryMarkerName(s: string) {
    && 19 <= |s| <= 198
    && s[..15] == "restic-restore-"
    && s[|s| - 3..] == ".ok"
    && forall i :: 15 <= i < |s| - 3 ==> IsAlphanumeric(s[i]) || s[i] == '.' || s[i] == '-'
  }

  const RETENTION_MARKER_NAME := "r2-retention-lock.ok"

  /** A bare file name: the path has no directory part. */
  predicate IsBasename(s: string) {
    s != "" && s != "." && '/' !in s
  }
}
