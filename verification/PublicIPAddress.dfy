/** The PublicIPAddress resource. */
module PublicIPAddresses {
  import opened Wrappers
  import opened FailedOperations

  const SERVICE_LABEL := "azure.remedy.gardener.cloud/service"
  const DO_NOT_CLEAN_ANNOTATION := "azure.remedy.gardener.cloud/do-not-clean"

  datatype Status = Status(
    found: bool,
    id: Option<string>,
    name: Option<string>,
    provisioningState: Option<string>,
    failedOperations: seq<FailedOperation>)

  const EMPTY_STATUS := Status(false, None, None, None, [])

  datatype PublicIPAddress = PublicIPAddress(
    labels: map<string, string>,
    annotations: map<string, string>,
    ipAddress: string,
    deletionTimestamp: Option<int>,
    finalizer: bool,
    status: Status)

  /** Go's map lookup: the empty string for a missing key. */
  function Get(m: map<string, string>, key: string): string {
    if key in m then m[key] else ""
  }

  predicate ShouldNotClean(annotations: map<string, string>) {
    Get(annotations, DO_NOT_CLEAN_ANNOTATION) == "true"
  }

  /** What users set to keep an address: this annotation, with this value. */
  predicate Protected(annotations: map<string, string>) {
    var key := "azure.remedy.gardener.cloud/do-not-clean";
    key in annotations && annotations[key] == "true"
  }
}
