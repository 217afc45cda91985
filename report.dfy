/**
 * The lines of the report that processInstances writes into its string builder
 * (internal/checker/checker.go:154-192). Each line is kept as the data it prints.
 */
module Report {

  datatype Line =
    | Header(count: nat)                                      // "Found N long-running instances:"
    | Found(id: string, instanceType: string, runtimeNanos: int) // "- ID: ..., Type: ..., Runtime: ... hours"
    | Terminated(id: string)                                  // "Successfully terminated instance ..."
    | TerminateFailed(id: string, reason: string)             // "Failed to terminate instance ...: ..."
}
