/** The fixed user-facing messages of helpers/StatusMessages.java. */
module StatusMessages {

  const UNAUTHORIZED_ACCOUNT_ERROR := "You are not authorized perform action on this account"
  const INVALID_CURRENCY_ERROR := "The currency of funds in the transfer operation must match the receiver's account currency"
  const INSUFFICIENT_BALANCE_ERROR := "Insufficient balance"
  const TRANSFER_SUCCEEDED := "Transfer Performed Successfully"
  const EXCHANGE_UNAVAILABLE_ERROR := "Exchange rates API unavailable"
  const RETRIEVE_EXCHANGE_RATE_ERROR := "Unable to retrieve exchange rates"
  const SOURCE_ACCOUNT_NOT_FOUND_ERROR := "Source account not found"
  const DESTINATION_ACCOUNT_NOT_FOUND_ERROR := "Destination account not found"
  const ACCOUNT_NOT_FOUND_ERROR := "Account not found"
  const CLIENT_NOT_FOUND_ERROR := "Client not found"
  const IDENTICAL_SOURCE_AND_DESTINATION_ACCOUNT_ERROR := "Source and destination account are identical"
  const TRANSFER_ERROR := "Failed to perform transfer, transaction has been rolled back"
  const CREATE_ACCOUNT_ERROR := "Failed to create account"
  const EMAIL_IN_USE_ERROR := "Email is in use"
  const USERNAME_IN_USE_ERROR := "Username is in use"
  const PASSWORD_POLICY_ERROR := "Password must include number, upper and lower case character and min length of 8"
}
