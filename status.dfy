/** The two per-recording status columns, `transcriptionStatus` and `summaryStatus`. */
module RecordingStatus {

  datatype Status = Pending | Processing | Completed | Failed
}
