/** Names of stored profiles: how the collector prints them and how the controller takes them apart. */
module ProfileName {

  function LowerChar(c: char): char {
    if 'A' <= c <= 'Z' then c - 'A' + 'a' else c
  }

  function Lower(s: string): (r: string)
    ensures |r| == |s|
    ensures forall i :: 0 <= i < |s| ==> r[i] == LowerChar(s[i])
    ensures '-' in r <==> '-' in s
  {
    if s == "" then "" else [LowerChar(s[0])] + Lower(s[1..])
  }

  /** `GetApplicationProfileName`. */
  function Print(storeNamespace: string, namespace: string, kind: string, name: string): string {
    if storeNamespace != "" then Lower(kind) + "-" + Lower(name) + "-" + namespace
    else Lower(kind) + "-" + Lower(name)
  }

  /** Capital letters become small ones, and nothing else changes. */
  lemma LowerMeaning(s: string, i: nat)
    requires i < |s|
    ensures |Lower(s)| == |s|
    ensures 'A' <= s[i] <= 'Z' ==> 'a' <= Lower(s)[i] <= 'z' && Lower(s)[i] - 'a' == s[i] - 'A'
    ensures s[i] < 'A' || s[i] > 'Z' ==> Lower(s)[i] == s[i]
  {
    hide Lower;
  }

  // ---------- Go's strings package, for the separator "-" ----------

  /** Index of the first dash, or the length of the string. */
  function FirstDash(s: string): (i: nat)
    ensures i <= |s|
    ensures i < |s| ==> s[i] == '-'
    ensures '-' !in s[..i]
  {
    if s == "" || s[0] == '-' then 0
    else
      var i := 1 + FirstDash(s[1..]);
      assert s[..i] == [s[0]] + s[1..][..i - 1];
      i
  }

  function Split(s: string): (parts: seq<string>)
    ensures |parts| >= 1
    decreases |s|
  {
    var i := FirstDash(s);
    if i == |s| then [s] else [s[..i]] + Split(s[i + 1..])
  }

  function Join(parts: seq<string>): string {
    if parts == [] then ""
    else if |parts| == 1 then parts[0]
    else parts[0] + "-" + Join(parts[1..])
  }

  function TrimSuffix(s: string, suffix: string): string {
    if |suffix| <= |s| && s[|s| - |suffix|..] == suffix then s[..|s| - |suffix|] else s
  }

  /** The object name the controller derives from a profile's name and its namespace label. */
  function Parse(storeNamespace: string, namespaceLabel: string, profileName: string): string {
    var objectName := Join(Split(profileName)[1..]);
    if storeNamespace == "" then objectName else TrimSuffix(objectName, "-" + namespaceLabel)
  }

  // ---------- Round trips ----------

  lemma {:induction false} JoinInvertsSplit(s: string)
    ensures Join(Split(s)) == s
    decreases |s|
  {
    hide FirstDash;
    var i := FirstDash(s);
    if i < |s| {
      JoinInvertsSplit(s[i + 1..]);
      assert Split(s)[1..] == Split(s[i + 1..]);
      assert s[i] == "-"[0];
      assert s[..i] + "-" + s[i + 1..] == s;
    }
  }

  /** Splitting, dropping the first part and joining gives the text after the first dash. */
  lemma {:induction false} DropFirstPart(s: string)
    ensures Join(Split(s)[1..]) == if FirstDash(s) < |s| then s[FirstDash(s) + 1..] else ""
  {
    var i := FirstDash(s);
    if i < |s| {
      assert Split(s)[1..] == Split(s[i + 1..]);
      hide Split, Join, FirstDash;
      JoinInvertsSplit(s[i + 1..]);
    }
  }

  lemma {:induction false} FirstDashAfter(prefix: string, rest: string)
    requires '-' !in prefix
    ensures FirstDash(prefix + "-" + rest) == |prefix|
  {
    var s := prefix + "-" + rest;
    if prefix == "" {
      assert s[0] == '-';
    } else {
      FirstDashAfter(prefix[1..], rest);
      assert s[1..] == prefix[1..] + "-" + rest;
    }
  }

  /** Dropping the kind leaves the rest, dashes included. */
  lemma DropKind(kind: string, rest: string)
    requires '-' !in kind
    ensures Join(Split(kind + "-" + rest)[1..]) == rest
  {
    hide Split, Join;
    var s := kind + "-" + rest;
    FirstDashAfter(kind, rest);
    DropFirstPart(s);
    assert s[|kind| + 1..] == rest;
  }

  lemma TrimSuffixOf(s: string, suffix: string)
    ensures TrimSuffix(s + suffix, suffix) == s
  {
    assert (s + suffix)[|s|..] == suffix;
    assert (s + suffix)[..|s|] == s;
  }

  lemma ParseStored(storeNamespace: string, nsLabel: string, kind: string, name: string, namespace: string)
    requires '-' !in kind && storeNamespace != ""
    ensures Parse(storeNamespace, nsLabel, kind + "-" + name + "-" + namespace)
         == TrimSuffix(name + ("-" + namespace), "-" + nsLabel)
  {
    var rest := name + ("-" + namespace);
    assert kind + "-" + name + "-" + namespace == kind + "-" + rest;
    DropKind(kind, rest);
  }

  /** For a kind without a dash the printed name parses back, whatever dashes name and namespace contain. */
  lemma ParseInvertsPrint(storeNamespace: string, namespace: string, kind: string, name: string)
    requires '-' !in kind
    ensures Parse(storeNamespace, namespace, Print(storeNamespace, namespace, kind, name)) == Lower(name)
  {
    if storeNamespace == "" {
      DropKind(Lower(kind), Lower(name));
    } else {
      ParseStored(storeNamespace, namespace, Lower(kind), Lower(name), namespace);
      TrimSuffixOf(Lower(name), "-" + namespace);
    }
  }

  /** Beside their pods, profiles are parsed without the label. */
  lemma LabelUnused(nsLabel: string, nsLabel': string, profileName: string)
    ensures Parse("", nsLabel, profileName) == Parse("", nsLabel', profileName)
  {
  }

  /** In store-namespace mode without the namespace label the name parses back only for an empty namespace. */
  lemma MissingLabelIff(storeNamespace: string, namespace: string, kind: string, name: string)
    requires '-' !in kind && storeNamespace != ""
    ensures Parse(storeNamespace, "", Print(storeNamespace, namespace, kind, name)) == Lower(name) <==> namespace == ""
  {
    ParseStored(storeNamespace, "", Lower(kind), Lower(name), namespace);
    if namespace == "" {
      TrimSuffixOf(Lower(name), "-" + namespace);
    } else {
      assert |TrimSuffix(Lower(name) + ("-" + namespace), "-" + "")| > |Lower(name)|;
    }
  }
}
