/** Whether the append only file is off, waits for its first rewrite, or is on. */
module AofMode {

  datatype Mode = Off | WaitRewrite | On
}
